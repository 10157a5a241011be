/** A row of the wallet unlock table and the comparator `getSortedData`
    sorts it with. The column the user clicked is an enumerated field
    selector instead of a property name. */
module Wallet {
  import opened Text

  /** A date column: the text shown in the table and the timestamp that
      `new Date(text).getTime()` yields for it. */
  datatype Date = Date(text: string, time: int)

  datatype WalletRecord = WalletRecord(
    rank: int,
    address: string,
    totalAmount: real,
    unlockedAmount: real,
    lockedAmount: real,
    startDate: Date,
    endDate: Date)

  datatype Field = Rank | Address | TotalAmount | UnlockedAmount | LockedAmount | StartDate | EndDate

  datatype Direction = Asc | Desc

  datatype SortState = SortState(field: Field, direction: Direction)

  /** The column the table starts sorted by. */
  const DefaultSort := SortState(Rank, Asc)

  /** The number every column but the address is compared as: ranks and
      amounts directly, dates through their timestamps. */
  function NumericValue(f: Field, w: WalletRecord): (r: real)
    requires f != Address
    ensures f == Rank ==> r == w.rank as real
    ensures f == TotalAmount ==> r == w.totalAmount
    ensures f == UnlockedAmount ==> r == w.unlockedAmount
    ensures f == LockedAmount ==> r == w.lockedAmount
    ensures f == StartDate ==> r == w.startDate.time as real
    ensures f == EndDate ==> r == w.endDate.time as real
  {
    match f
    case Rank => w.rank as real
    case TotalAmount => w.totalAmount
    case UnlockedAmount => w.unlockedAmount
    case LockedAmount => w.lockedAmount
    case StartDate => w.startDate.time as real
    case EndDate => w.endDate.time as real
  }

  /** The sort comparator, branch for branch: addresses are lower-cased and
      compared, anything else is compared as a number, and the descending
      branches spell out the reversed tests. */
  function Compare(st: SortState, a: WalletRecord, b: WalletRecord): (r: int)
    ensures -1 <= r <= 1
  {
    if st.field == Address then
      var x, y := Lower(a.address), Lower(b.address);
      if st.direction == Asc then LexCmp(x, y) else LexCmp(y, x)
    else
      var x, y := NumericValue(st.field, a), NumericValue(st.field, b);
      if st.direction == Asc then
        (if x < y then -1 else if x > y then 1 else 0)
      else
        (if x > y then -1 else if x < y then 1 else 0)
  }

  /** The order a column is meant to have, stated without the comparator:
      lexicographic on lower-cased addresses, numeric otherwise. */
  predicate KeyLe(f: Field, a: WalletRecord, b: WalletRecord) {
    if f == Address then LexLe(Lower(a.address), Lower(b.address))
    else NumericValue(f, a) <= NumericValue(f, b)
  }

  /** `a` may precede `b` in the table under the given sort state. */
  predicate InOrder(st: SortState, a: WalletRecord, b: WalletRecord) {
    if st.direction == Asc then KeyLe(st.field, a, b) else KeyLe(st.field, b, a)
  }

  /** The descending comparator is the ascending one with its arguments
      swapped. */
  lemma DescIsSwappedAsc(f: Field, a: WalletRecord, b: WalletRecord)
    ensures Compare(SortState(f, Desc), a, b) == Compare(SortState(f, Asc), b, a)
  {
  }

  lemma CompareAntisymmetric(st: SortState, a: WalletRecord, b: WalletRecord)
    ensures Compare(st, a, b) == -Compare(st, b, a)
  {
    if st.field == Address {
      LexCmpAntisymmetric(Lower(a.address), Lower(b.address));
    }
  }

  lemma CompareTransitive(st: SortState, a: WalletRecord, b: WalletRecord, c: WalletRecord)
    requires Compare(st, a, b) <= 0 && Compare(st, b, c) <= 0
    ensures Compare(st, a, c) <= 0
  {
    if st.field == Address {
      var x, y, z := Lower(a.address), Lower(b.address), Lower(c.address);
      if st.direction == Asc {
        LexCmpTransitive(x, y, z);
      } else {
        LexCmpTransitive(z, y, x);
      }
    }
  }

  /** The comparator ranks `a` no later than `b` exactly when the column's
      intended order allows `a` first. */
  lemma CompareMatchesKeyOrder(st: SortState, a: WalletRecord, b: WalletRecord)
    ensures Compare(st, a, b) <= 0 <==> InOrder(st, a, b)
  {
    if st.field == Address {
      if st.direction == Asc {
        LexCmpIsLexLe(Lower(a.address), Lower(b.address));
      } else {
        LexCmpIsLexLe(Lower(b.address), Lower(a.address));
      }
    }
  }

  /** Sorting by address ignores letter case: two records tie exactly when
      their addresses are equal after lower-casing. */
  lemma AddressOrderIgnoresCase(st: SortState, a: WalletRecord, b: WalletRecord)
    requires st.field == Address
    ensures Compare(st, a, b) == 0 <==> Lower(a.address) == Lower(b.address)
  {
    LexCmpZero(Lower(a.address), Lower(b.address));
    LexCmpZero(Lower(b.address), Lower(a.address));
  }

  /** Two addresses spelled with different letter case sort as a tie. */
  lemma AddressCaseExample(st: SortState)
    requires st.field == Address
    ensures Compare(st, WalletRecord(1, "EQAbC", 0.0, 0.0, 0.0, Date("", 0), Date("", 0)),
                        WalletRecord(2, "eqaBc", 5.0, 5.0, 0.0, Date("", 0), Date("", 0))) == 0
  {
    var a := WalletRecord(1, "EQAbC", 0.0, 0.0, 0.0, Date("", 0), Date("", 0));
    var b := WalletRecord(2, "eqaBc", 5.0, 5.0, 0.0, Date("", 0), Date("", 0));
    assert Lower(a.address) == Lower(b.address);
    AddressOrderIgnoresCase(st, a, b);
  }
}
