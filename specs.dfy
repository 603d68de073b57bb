/** The navigation spec document (main.go `Spec`, search.go `Search`), as
    `json.Unmarshal` leaves it: each field is present or nil. */
module Specs {
  import opened Common
  import Lists

  /** A search node: the base URL that queries are appended to. */
  datatype Search = Search(url: string)

  /** A decoded document. The source's `Spec` has exactly these two fields;
      a document may set both, one or neither. */
  datatype Spec = Spec(search: Option<Search>, list: Option<seq<Lists.ListItem>>)
}
