/** The controller's table state: the loaded wallet list (absent until the
    dataset arrives, and for good if loading failed), the current sort
    state, header clicks, and the rows `renderTable` produces. */
module Table {
  import opened Wrappers
  import opened Wallet
  import opened Sorting
  import opened Formatter

  datatype AppState = AppState(wallets: Option<seq<WalletRecord>>, sort: SortState)

  /** The controller right after construction: nothing loaded yet, sorted
      by rank ascending. */
  const Initial := AppState(None, DefaultSort)

  /** The outcome of loading the dataset: its wallet list on success;
      on failure the state stays as it was. */
  function DataLoaded(app: AppState, loaded: Option<seq<WalletRecord>>): (r: AppState)
    ensures r.sort == app.sort
    ensures loaded.Some? ==> r.wallets == loaded
    ensures loaded.None? ==> r == app
  {
    if loaded.Some? then app.(wallets := loaded) else app
  }

  function Flip(d: Direction): (r: Direction)
    ensures r != d
  {
    if d == Asc then Desc else Asc
  }

  /** `handleTableSort`: a click on the current column reverses its
      direction, a click on another column selects it ascending, and without
      loaded data a click does nothing. */
  function HandleTableSort(app: AppState, f: Field): (r: AppState)
    ensures r.wallets == app.wallets
    ensures app.wallets.None? ==> r == app
    ensures app.wallets.Some? ==> r.sort.field == f
    ensures app.wallets.Some? && app.sort.field == f ==> r.sort.direction != app.sort.direction
    ensures app.wallets.Some? && app.sort.field != f ==> r.sort.direction == Asc
  {
    if app.wallets.None? then app
    else if app.sort.field == f then app.(sort := SortState(f, Flip(app.sort.direction)))
    else app.(sort := SortState(f, Asc))
  }

  /** Two clicks on the current column bring back the original state. */
  lemma ClickingCurrentFieldTwiceRestores(app: AppState)
    ensures HandleTableSort(HandleTableSort(app, app.sort.field), app.sort.field) == app
  {
  }

  /** Two clicks on a new column leave it sorted descending. */
  lemma ClickingNewFieldTwiceSortsDescending(app: AppState, f: Field)
    requires app.wallets.Some? && app.sort.field != f
    ensures HandleTableSort(HandleTableSort(app, f), f).sort == SortState(f, Desc)
  {
  }

  /** One table row; the date cells show the text as loaded. */
  datatype Row = Row(
    rank: int,
    address: string,
    total: NumberFormat,
    unlocked: NumberFormat,
    locked: NumberFormat,
    startDate: string,
    endDate: string)

  /** The cells of one row: rank, shortened address, the three amounts in
      the token-amount format, and the two dates as loaded. */
  function MakeRow(w: WalletRecord): (row: Row)
    ensures row.rank == w.rank
    ensures row.address == TruncateAddress(w.address)
    ensures row.total == FormatAmount(w.totalAmount)
    ensures row.unlocked == FormatAmount(w.unlockedAmount)
    ensures row.locked == FormatAmount(w.lockedAmount)
    ensures !row.total.currency && !row.unlocked.currency && !row.locked.currency
    ensures row.startDate == w.startDate.text && row.endDate == w.endDate.text
  {
    Row(w.rank, TruncateAddress(w.address),
        FormatAmount(w.totalAmount), FormatAmount(w.unlockedAmount), FormatAmount(w.lockedAmount),
        w.startDate.text, w.endDate.text)
  }

  function MakeRows(s: seq<WalletRecord>): (rows: seq<Row>)
    ensures |rows| == |s|
    ensures forall i :: 0 <= i < |s| ==> rows[i] == MakeRow(s[i])
  {
    seq(|s|, i requires 0 <= i < |s| => MakeRow(s[i]))
  }

  lemma {:induction false} MakeRowsAppend(x: seq<WalletRecord>, y: seq<WalletRecord>)
    ensures MakeRows(x + y) == MakeRows(x) + MakeRows(y)
  {
  }

  /** Taking one record out of a list takes its row out of the rows. */
  lemma RowsWithout(b: seq<WalletRecord>, k: nat)
    requires k < |b|
    ensures multiset(MakeRows(b)) == multiset(MakeRows(b[..k] + b[k + 1..])) + multiset{MakeRow(b[k])}
  {
    var x, z, y := b[..k], b[k], b[k + 1..];
    assert b == x + [z] + y;
    MakeRowsAppend(x + [z], y);
    MakeRowsAppend(x, [z]);
    MakeRowsAppend(x, y);
    var rx, rz, ry := MakeRows(x), MakeRows([z]), MakeRows(y);
    assert MakeRows(b) == rx + rz + ry;
    assert MakeRows(x + y) == rx + ry;
    assert multiset(rz) == multiset{MakeRow(z)};
  }

  /** Taking one record out of a list with known multiplicities. */
  lemma RecordsWithout(a: seq<WalletRecord>, b: seq<WalletRecord>, k: nat)
    requires |a| > 0 && k < |b| && b[k] == a[0]
    requires multiset(a) == multiset(b)
    ensures multiset(a[1..]) == multiset(b[..k] + b[k + 1..])
  {
    assert b == b[..k] + [b[k]] + b[k + 1..];
    assert multiset(b) == multiset(b[..k]) + multiset{b[k]} + multiset(b[k + 1..]);
    assert a == [a[0]] + a[1..];
    assert multiset(a[1..]) == multiset(a) - multiset{a[0]};
  }

  /** Records with the same multiplicities give rows with the same
      multiplicities. */
  lemma {:induction false} RowsOfPermutation(a: seq<WalletRecord>, b: seq<WalletRecord>)
    requires multiset(a) == multiset(b)
    ensures multiset(MakeRows(a)) == multiset(MakeRows(b))
    decreases |a|
  {
    if |a| > 0 {
      assert a[0] in multiset(b);
      var k :| 0 <= k < |b| && b[k] == a[0];
      RecordsWithout(a, b, k);
      RowsOfPermutation(a[1..], b[..k] + b[k + 1..]);
      RowsWithout(b, k);
      RowsWithout(a, 0);
      assert a[..0] + a[1..] == a[1..];
    }
  }

  /** `renderTable`: None when there is no data (the table body is left
      untouched); otherwise the rows of the stored records, each as often as
      it is stored, in an order sorted by the current column. */
  function RenderTable(app: AppState): (r: Option<seq<Row>>)
    ensures r.None? <==> app.wallets.None?
    ensures r.Some? ==> multiset(r.value) == multiset(MakeRows(app.wallets.value))
    ensures r.Some? ==> exists s ::
      && multiset(s) == multiset(app.wallets.value)
      && (forall i, j :: 0 <= i < j < |s| ==> InOrder(app.sort, s[i], s[j]))
      && r.value == MakeRows(s)
  {
    match app.wallets
    case None => None
    case Some(data) =>
      var sorted := GetSortedData(data, app.sort);
      RowsOfPermutation(sorted, data);
      Some(MakeRows(sorted))
  }

  /** Two clicks on the current column show the table exactly as before. */
  lemma DoubleClickRendersSameTable(app: AppState)
    ensures RenderTable(HandleTableSort(HandleTableSort(app, app.sort.field), app.sort.field)) == RenderTable(app)
  {
    ClickingCurrentFieldTwiceRestores(app);
  }

  /** With the dataset missing, no sequence of clicks changes anything and
      nothing is rendered. */
  lemma {:induction false} ClicksWithoutDataAreIgnored(app: AppState, clicks: seq<Field>)
    requires app.wallets.None?
    ensures ClickAll(app, clicks) == app
    ensures RenderTable(ClickAll(app, clicks)).None?
  {
    if |clicks| > 0 {
      ClicksWithoutDataAreIgnored(app, clicks[1..]);
    }
  }

  /** If the dataset fails to load, the table stays empty whatever headers
      the user clicks. */
  lemma FailedLoadRendersNothing(clicks: seq<Field>)
    ensures RenderTable(ClickAll(DataLoaded(Initial, None), clicks)).None?
  {
    ClicksWithoutDataAreIgnored(Initial, clicks);
  }

  /** Once the data is loaded, the table starts sorted by rank ascending:
      the first click on Rank reverses it, the first click elsewhere sorts
      that column ascending. */
  lemma FirstClickAfterLoad(data: seq<WalletRecord>, f: Field)
    ensures var app := DataLoaded(Initial, Some(data));
      && app.sort == SortState(Rank, Asc)
      && HandleTableSort(app, f).sort == (if f == Rank then SortState(Rank, Desc) else SortState(f, Asc))
  {
  }

  /** Header clicks applied one after another. */
  function ClickAll(app: AppState, clicks: seq<Field>): (r: AppState)
    ensures r.wallets == app.wallets
    decreases |clicks|
  {
    if |clicks| == 0 then app else ClickAll(HandleTableSort(app, clicks[0]), clicks[1..])
  }
}
