/**
 * The sortable supplier table of frontend/src/components/admin/AdminSuppliers.tsx:
 * a sort state of (field, order), the header click that updates it, the
 * comparator `sortedSuppliers` hands to `Array.prototype.sort` on a copy of
 * the list, and the arrow shown beside the active header.
 *
 * `Array.prototype.sort` is stable, so it is modelled as a stable insertion
 * sort on sequences; the input sequence is a value and is never modified.
 */
module AdminSuppliers {
  import opened StringOrder

  datatype Supplier = Supplier(
    supplierId: int,
    name: string,
    description: string,
    contactPerson: string,
    email: string,
    phone: string)

  /** `SortField`. */
  datatype SortField = Name | ContactPerson | Email | Phone

  /** `SortOrder`. */
  datatype SortOrder = Asc | Desc

  /** The two state variables `sortField` and `sortOrder`. */
  datatype SortState = SortState(field: SortField, order: SortOrder)

  /** The state on first render: by name, ascending. */
  const InitialSort := SortState(Name, Asc)

  /**
   * `handleSort`: clicking the active header flips the order; clicking
   * another header makes it active, ascending.
   */
  function HandleSort(s: SortState, field: SortField): (r: SortState)
    ensures r.field == field
    ensures field == s.field ==> r.order != s.order
    ensures field != s.field ==> r.order == Asc
  {
    if field == s.field then
      SortState(s.field, if s.order.Asc? then Desc else Asc)
    else
      SortState(field, Asc)
  }

  /**
   * The `switch (sortField)`: the string the comparator reads for a field.
   * Every field is a string, so the `string | number` initial value '' is
   * never compared.
   */
  function Key(s: Supplier, field: SortField): (k: string)
    ensures field.Name? ==> k == s.name
    ensures field.ContactPerson? ==> k == s.contactPerson
    ensures field.Email? ==> k == s.email
    ensures field.Phone? ==> k == s.phone
  {
    match field
    case Name => s.name
    case ContactPerson => s.contactPerson
    case Email => s.email
    case Phone => s.phone
  }

  /**
   * The comparator of `sortedSuppliers`: negative when `a` goes first,
   * positive when `b` does, 0 when the keys are equal. Ascending puts the
   * smaller key first, descending the larger one.
   */
  function Compare(s: SortState, a: Supplier, b: Supplier): (c: int)
    ensures -1 <= c <= 1
    ensures c == 0 <==> Key(a, s.field) == Key(b, s.field)
    ensures s.order == Asc ==> (c < 0 <==> Less(Key(a, s.field), Key(b, s.field)))
    ensures s.order == Desc ==> (c < 0 <==> Less(Key(b, s.field), Key(a, s.field)))
  {
    var x, y := Key(a, s.field), Key(b, s.field);
    LessIrreflexive(x);
    LessTrichotomous(x, y);
    LessAsymmetric(x, y);
    if s.order.Asc? then
      (if Less(x, y) then -1 else if Less(y, x) then 1 else 0)
    else
      (if Less(y, x) then -1 else if Less(x, y) then 1 else 0)
  }

  /** `a` may precede `b` in the sorted table. */
  predicate InOrder(s: SortState, a: Supplier, b: Supplier) {
    Compare(s, a, b) <= 0
  }

  /** Every pair of rows is in comparator order. */
  predicate Sorted(s: SortState, rows: seq<Supplier>) {
    forall i, j :: 0 <= i < j < |rows| ==> InOrder(s, rows[i], rows[j])
  }

  /** Inserts `x` before the first row it does not follow. */
  function Insert(s: SortState, x: Supplier, rows: seq<Supplier>): (r: seq<Supplier>)
    requires Sorted(s, rows)
    ensures multiset(r) == multiset(rows) + multiset{x}
    ensures Sorted(s, r)
  {
    if |rows| == 0 then [x]
    else if Compare(s, x, rows[0]) <= 0 then
      InOrderTransitiveAll(s, x, rows);
      [x] + rows
    else
      var rest := Insert(s, x, rows[1..]);
      assert rows == [rows[0]] + rows[1..];
      InOrderFlip(s, x, rows[0]);
      HeadPrecedesAll(s, rows[0], x, rows[1..], rest);
      [rows[0]] + rest
  }

  /** `sortedSuppliers`: the rows of the table, a reordering of `suppliers` in comparator order. */
  function SortSuppliers(s: SortState, suppliers: seq<Supplier>): (r: seq<Supplier>)
    ensures multiset(r) == multiset(suppliers)
    ensures |r| == |suppliers|
    ensures Sorted(s, r)
  {
    if |suppliers| == 0 then []
    else
      assert suppliers == [suppliers[0]] + suppliers[1..];
      Insert(s, suppliers[0], SortSuppliers(s, suppliers[1..]))
  }

  /** `renderSortIcon`: an up arrow beside the active header when ascending, a down arrow when descending. */
  function SortIcon(s: SortState, field: SortField): (icon: string)
    ensures icon != "" <==> field == s.field
    ensures icon == UpArrow <==> field == s.field && s.order == Asc
    ensures icon == DownArrow <==> field == s.field && s.order == Desc
  {
    assert UpArrow != DownArrow by { assert UpArrow[1] != DownArrow[1]; }
    if s.field == field then
      (if s.order.Asc? then UpArrow else DownArrow)
    else
      ""
  }

  /** The indicator beside an ascending header. */
  const UpArrow: string := " \U{2191}"

  /** The indicator beside a descending header. */
  const DownArrow: string := " \U{2193}"

  // ---------------------------------------------------------------------
  // Lemmas

  /** On first render the name header carries the up arrow and no other header has one. */
  lemma InitialSortShowsNameAscending()
    ensures SortIcon(InitialSort, Name) == UpArrow
    ensures forall g :: g != Name ==> SortIcon(InitialSort, g) == ""
  {
  }

  /** Clicking the active header twice restores the sort state. */
  lemma HandleSortTwiceRestores(s: SortState)
    ensures HandleSort(HandleSort(s, s.field), s.field) == s
  {
  }

  /** Clicking a new header twice leaves it active and descending. */
  lemma HandleSortNewFieldTwice(s: SortState, field: SortField)
    requires field != s.field
    ensures HandleSort(HandleSort(s, field), field) == SortState(field, Desc)
  {
  }

  /** After any click, exactly the clicked header carries the arrow, and it shows the new order. */
  lemma HandleSortMovesIcon(s: SortState, field: SortField)
    ensures SortIcon(HandleSort(s, field), field) != ""
    ensures forall g :: g != field ==> SortIcon(HandleSort(s, field), g) == ""
    ensures field != s.field ==> SortIcon(HandleSort(s, field), field) == UpArrow
  {
  }

  /** The descending comparator is the negation of the ascending one. */
  lemma DescNegatesAsc(field: SortField, a: Supplier, b: Supplier)
    ensures Compare(SortState(field, Desc), a, b) == -Compare(SortState(field, Asc), a, b)
  {
    LessAsymmetric(Key(a, field), Key(b, field));
  }

  /** Swapping the arguments negates the comparator. */
  lemma CompareAntisymmetric(s: SortState, a: Supplier, b: Supplier)
    ensures Compare(s, b, a) == -Compare(s, a, b)
  {
    LessAsymmetric(Key(a, s.field), Key(b, s.field));
  }

  /** A row that may not precede another may follow it: the comparator leaves no pair unordered. */
  lemma InOrderFlip(s: SortState, a: Supplier, b: Supplier)
    requires !InOrder(s, a, b)
    ensures InOrder(s, b, a)
  {
    CompareAntisymmetric(s, a, b);
  }

  /** May-precede is transitive, because `<` on strings is. */
  lemma InOrderTransitive(s: SortState, a: Supplier, b: Supplier, c: Supplier)
    requires InOrder(s, a, b) && InOrder(s, b, c)
    ensures InOrder(s, a, c)
  {
    var x, y, z := Key(a, s.field), Key(b, s.field), Key(c, s.field);
    if s.order == Asc {
      if Less(x, y) && Less(y, z) {
        LessTransitive(x, y, z);
      }
    } else {
      if Less(z, y) && Less(y, x) {
        LessTransitive(z, y, x);
      }
    }
  }

  /** A row that may precede the head of a sorted table may be put in front of all of it. */
  lemma InOrderTransitiveAll(s: SortState, x: Supplier, rows: seq<Supplier>)
    requires |rows| > 0 && Sorted(s, rows) && InOrder(s, x, rows[0])
    ensures Sorted(s, [x] + rows)
  {
    forall k | 0 < k < |rows|
      ensures InOrder(s, x, rows[k])
    {
      InOrderTransitive(s, x, rows[0], rows[k]);
    }
    var r := [x] + rows;
    forall i, j | 0 <= i < j < |r|
      ensures InOrder(s, r[i], r[j])
    {
      if i > 0 {
        assert r[i] == rows[i - 1] && r[j] == rows[j - 1];
      }
    }
  }

  /**
   * The head of a sorted table stays in front after `x`, which it may
   * precede, is inserted into the rest: `rest` holds the tail's rows and `x`.
   */
  lemma HeadPrecedesAll(s: SortState, h: Supplier, x: Supplier, tail: seq<Supplier>, rest: seq<Supplier>)
    requires Sorted(s, [h] + tail) && InOrder(s, h, x)
    requires Sorted(s, rest) && multiset(rest) == multiset(tail) + multiset{x}
    ensures Sorted(s, [h] + rest)
  {
    var r := [h] + rest;
    forall k | 0 <= k < |rest|
      ensures InOrder(s, h, rest[k])
    {
      assert rest[k] in multiset(rest);
      if rest[k] != x {
        assert multiset(tail)[rest[k]] == multiset(rest)[rest[k]] > 0;
        assert rest[k] in tail;
        var m :| 0 <= m < |tail| && tail[m] == rest[k];
        assert ([h] + tail)[0] == h && ([h] + tail)[m + 1] == tail[m];
      }
    }
    forall i, j | 0 <= i < j < |r|
      ensures InOrder(s, r[i], r[j])
    {
      assert r[j] == rest[j - 1];
      if i > 0 {
        assert r[i] == rest[i - 1];
      }
    }
  }

  /** Ascending order: the selected field never decreases down the table. */
  lemma SortedAscNonDecreasing(field: SortField, suppliers: seq<Supplier>, i: int, j: int)
    requires 0 <= i < j < |suppliers|
    ensures var rows := SortSuppliers(SortState(field, Asc), suppliers);
      !Less(Key(rows[j], field), Key(rows[i], field))
  {
    var rows := SortSuppliers(SortState(field, Asc), suppliers);
    assert InOrder(SortState(field, Asc), rows[i], rows[j]);
    LessAsymmetric(Key(rows[i], field), Key(rows[j], field));
  }

  /** The comparator reads only the selected field: the id and description never matter. */
  lemma KeyIgnoresIdAndDescription(s: SortState, a: Supplier, b: Supplier, id: int, description: string)
    ensures Compare(s, a.(supplierId := id, description := description), b) == Compare(s, a, b)
    ensures Compare(s, a, b.(supplierId := id, description := description)) == Compare(s, a, b)
  {
  }

  /** Descending order: the selected field never increases down the table. */
  lemma SortedDescNonIncreasing(field: SortField, suppliers: seq<Supplier>, i: int, j: int)
    requires 0 <= i < j < |suppliers|
    ensures var rows := SortSuppliers(SortState(field, Desc), suppliers);
      !Less(Key(rows[i], field), Key(rows[j], field))
  {
    var rows := SortSuppliers(SortState(field, Desc), suppliers);
    assert InOrder(SortState(field, Desc), rows[i], rows[j]);
    LessAsymmetric(Key(rows[i], field), Key(rows[j], field));
  }
}
