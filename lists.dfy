/** list.go: list items, the list widget they are shown in, `UpdateFunc`
    (render) and `List.Run`. The widget is tview's `List`; only the part of it
    the client uses is modelled: its rows, its current item, `Clear`,
    `AddItem`, `SetCurrentItem` and its own Up/Down handling. */
module Lists {
  import opened Common

  datatype ListItem = ListItem(title: string, subtitle: string, url: string)

  /** A key the list and the search field react to. The list moves on Tab
      as on Down and on Backtab as on Up. */
  datatype Key = Up | Down | Tab | Backtab | Enter | Other

  /** One row of the widget: its main and secondary text. */
  datatype Row = Row(main: string, secondary: string)

  /** What an item shows: its title and subtitle, never its URL. */
  function RowOf(item: ListItem): Row
  {
    Row(item.title, item.subtitle)
  }

  /** The rows that show a list, in list order. */
  function Rows(l: seq<ListItem>): seq<Row>
  {
    seq(|l|, i requires 0 <= i < |l| => RowOf(l[i]))
  }

  /** Rendering shows one row per item, in order; the URLs play no part, so
      two lists that differ only in their URLs look the same. */
  lemma RowsShowTitles(a: seq<ListItem>, b: seq<ListItem>)
    ensures |Rows(a)| == |a|
    ensures forall i | 0 <= i < |a| :: Rows(a)[i] == Row(a[i].title, a[i].subtitle)
    ensures |a| == |b| && (forall i | 0 <= i < |a| :: a[i].title == b[i].title && a[i].subtitle == b[i].subtitle)
      ==> Rows(a) == Rows(b)
  {
  }

  /** tview's `SetCurrentItem`: a negative index counts from the end, and the
      result is clamped to the rows (0 when there are none). */
  function ClampIndex(index: int, count: nat): (r: int)
    ensures count == 0 ==> r == 0
    ensures count > 0 ==> 0 <= r < count
    ensures 0 <= index < count ==> r == index
    ensures index < 0 && 0 <= count + index ==> r == count + index
  {
    var i := if index < 0 then count + index else index;
    var j := if i >= count then count - 1 else i;
    if j < 0 then 0 else j
  }

  /** The current item is one of `count` rows, or 0 when there are none. */
  predicate InRange(current: int, count: nat)
  {
    if count == 0 then current == 0 else 0 <= current < count
  }

  /** The list widget. */
  class ListWidget {
    var rows: seq<Row>
    var current: int

    /** The current item is a row, or 0 when there are no rows. */
    ghost predicate Valid()
      reads this
    {
      InRange(current, |rows|)
    }

    constructor ()
      ensures Valid() && rows == [] && current == 0
    {
      rows := [];
      current := 0;
    }

    function ItemCount(): nat
      reads this
    {
      |rows|
    }

    method Clear()
      modifies this
      ensures Valid() && rows == [] && current == 0
    {
      rows := [];
      current := 0;
    }

    method AddItem(main: string, secondary: string)
      modifies this
      ensures rows == old(rows) + [Row(main, secondary)] && current == old(current)
    {
      rows := rows + [Row(main, secondary)];
    }

    method SetCurrentItem(index: int)
      modifies this
      ensures Valid() && rows == old(rows) && current == ClampIndex(index, |rows|)
    {
      current := ClampIndex(index, |rows|);
    }

    /** The widget's own handling of the movement keys: one row down (Down,
        Tab) or up (Up, Backtab), wrapping around at either end, as tview's
        list does by default. */
    method Move(k: Key)
      requires Valid()
      modifies this
      ensures Valid() && rows == old(rows)
      ensures current == if rows == [] then old(current) else (old(current) + Step(k)) % |rows|
    {
      if rows != [] {
        current := (current + Step(k)) % |rows|;
      }
    }
  }

  function Step(k: Key): int
  {
    match k
    case Up => -1
    case Backtab => -1
    case Down => 1
    case Tab => 1
    case _ => 0
  }

  /** `List.UpdateFunc`'s closure: clear the widget, then add each item's
      title and subtitle in list order. Whatever the widget showed before, it
      shows exactly the list afterwards, so rendering twice is rendering once. */
  method Render(l: seq<ListItem>, w: ListWidget)
    modifies w
    ensures w.Valid() && w.rows == Rows(l) && w.ItemCount() == |l| && w.current == 0
  {
    w.Clear();
    for i := 0 to |l|
      invariant w.rows == Rows(l[..i]) && w.current == 0
    {
      w.AddItem(l[i].title, l[i].subtitle);
      assert Rows(l[..i + 1]) == Rows(l[..i]) + [RowOf(l[i])];
    }
    assert l[..|l|] == l;
  }

  /** `List.Run`: shows the list until Enter is pressed on item `current`,
      and then returns "" and no error; the chosen item's URL is not
      returned. */
  function ListRun(l: seq<ListItem>, current: int): Result<string>
  {
    Ok("")
  }

  /** Whichever item is selected, `List.Run` ends the navigation: it never
      returns the selected item's URL when that URL is non-empty. */
  lemma ListRunIgnoresSelection(l: seq<ListItem>, current: int)
    requires 0 <= current < |l| && l[current].url != ""
    ensures ListRun(l, current) != Ok(l[current].url)
    ensures ListRun(l, current) == Ok("")
  {
  }
}
