/**
 * The payment-details screen: an editable table of payment installments
 * (add, remove, edit one field of one row), the running percentage total,
 * the node positions of the progress graph, and the single open dropdown
 * (a row's type menu or the month picker).
 */
module Installments {
  import opened Wrappers
  import opened Numeric

  /** A percentage as `Number(text)` produces it: a number or NaN. */
  datatype Percent = Num(value: real) | NaN

  datatype Installment = Installment(
    id: int,
    displayId: string,
    month: string,
    year: string,
    percent: Percent,
    paymentType: string)

  /** The four `updateInstallment(id, field, value)` calls the screen makes. */
  datatype Edit =
    | SetDisplayId(text: string)
    | SetMonth(month: string)
    | SetPercent(percent: Percent)
    | SetType(paymentType: string)

  /**
   * `activeDropdownId`: `null`, a row id (that row's type menu is open) or
   * the string `month-<id>` (the month picker for that row is open).
   */
  datatype Dropdown = Closed | TypeMenu(id: int) | MonthMenu(id: int)

  const DownPayment: string := "Down Payment"
  const DuringConstruction: string := "During Construction"
  const OnHandover: string := "On Handover"

  /** No two rows share an id. */
  ghost predicate DistinctIds(xs: seq<Installment>)
  {
    forall i, j :: 0 <= i < j < |xs| ==> xs[i].id != xs[j].id
  }

  /** Every id is positive (so `parseInt` of `month-<id>` is always truthy). */
  ghost predicate PositiveIds(xs: seq<Installment>)
  {
    forall i :: 0 <= i < |xs| ==> xs[i].id > 0
  }

  // ---- String(n) for the display index ----

  function DigitChar(d: int): (c: char)
    requires 0 <= d < 10
    ensures '0' <= c <= '9'
    ensures c as int - '0' as int == d
  {
    "0123456789"[d]
  }

  /** `String(n)` for a natural number: its decimal digits, most significant first. */
  function DecimalString(n: nat): (s: string)
    ensures 1 <= |s|
    ensures forall k :: 0 <= k < |s| ==> '0' <= s[k] <= '9'
    ensures (n < 10) == (|s| == 1)
    ensures n > 0 ==> s[0] != '0'
  {
    if n < 10 then [DigitChar(n)] else DecimalString(n / 10) + [DigitChar(n % 10)]
  }

  /** The number a string of decimal digits denotes, most significant digit first. */
  function DecimalValue(s: string): int
  {
    if s == [] then 0
    else 10 * DecimalValue(s[..|s| - 1]) + (s[|s| - 1] as int - '0' as int)
  }

  /** `String(n)` spells `n`: reading its digits back gives `n`. */
  lemma {:induction false} DecimalRoundTrip(n: nat)
    ensures DecimalValue(DecimalString(n)) == n
  {
    var s := DecimalString(n);
    if n >= 10 {
      DecimalRoundTrip(n / 10);
      assert s[..|s| - 1] == DecimalString(n / 10);
    } else {
      assert s[..0] == [];
    }
  }

  // ---- totalPercent ----

  /** `Number(curr.percent) || 0`: NaN counts as zero. */
  function Contribution(p: Percent): (c: real)
    ensures p.NaN? ==> c == 0.0
    ensures p.Num? ==> c == p.value
  {
    match p
    case Num(v) => v
    case NaN => 0.0
  }

  /** `installments.reduce((acc, curr) => acc + (Number(curr.percent) || 0), 0)`, folded from the left. */
  function TotalPercent(xs: seq<Installment>): (total: real)
    ensures xs == [] ==> total == 0.0
    ensures (forall i :: 0 <= i < |xs| ==> 0.0 <= Contribution(xs[i].percent)) ==> 0.0 <= total
  {
    if xs == [] then 0.0
    else TotalPercent(xs[..|xs| - 1]) + Contribution(xs[|xs| - 1].percent)
  }

  /** The total of a concatenation is the sum of the totals. */
  lemma {:induction false} TotalPercentConcat(a: seq<Installment>, b: seq<Installment>)
    ensures TotalPercent(a + b) == TotalPercent(a) + TotalPercent(b)
  {
    if b == [] {
      assert a + b == a;
    } else {
      assert (a + b)[..|a + b| - 1] == a + b[..|b| - 1];
      TotalPercentConcat(a, b[..|b| - 1]);
    }
  }

  /** Replacing one row changes the total by exactly the difference of the two rows' contributions. */
  lemma {:induction false} TotalPercentReplace(xs: seq<Installment>, k: int, y: Installment)
    requires 0 <= k < |xs|
    ensures TotalPercent(xs[k := y])
            == TotalPercent(xs) - Contribution(xs[k].percent) + Contribution(y.percent)
  {
    var before, after := xs[..k], xs[k + 1..];
    assert xs == before + [xs[k]] + after;
    assert xs[k := y] == before + [y] + after;
    TotalPercentConcat(before + [xs[k]], after);
    TotalPercentConcat(before + [y], after);
    TotalPercentConcat(before, [xs[k]]);
    TotalPercentConcat(before, [y]);
    assert TotalPercent([xs[k]]) == Contribution(xs[k].percent) by {
      assert [xs[k]][..0] == [];
    }
    assert TotalPercent([y]) == Contribution(y.percent) by {
      assert [y][..0] == [];
    }
  }

  // ---- addInstallment ----

  /** `Math.max(...installments.map(i => i.id))` on a non-empty list. */
  function MaxId(xs: seq<Installment>): (m: int)
    requires xs != []
    ensures forall i :: 0 <= i < |xs| ==> xs[i].id <= m
    ensures exists i :: 0 <= i < |xs| && xs[i].id == m
  {
    if |xs| == 1 then xs[0].id
    else
      var rest := MaxId(xs[1..]);
      assert forall i :: 1 <= i < |xs| ==> xs[i] == xs[1..][i - 1];
      if xs[0].id >= rest then xs[0].id else rest
  }

  /** The id the next row gets: one past the largest id, or 1 for an empty table. */
  function NewId(xs: seq<Installment>): (id: int)
    ensures forall i :: 0 <= i < |xs| ==> xs[i].id < id
    ensures PositiveIds(xs) ==> id > 0
  {
    if |xs| > 0 then MaxId(xs) + 1 else 1
  }

  /** The row `addInstallment` appends. */
  function NewInstallment(xs: seq<Installment>): (x: Installment)
    ensures forall i :: 0 <= i < |xs| ==> xs[i].id < x.id
    ensures Contribution(x.percent) == 0.0
    ensures x.paymentType != DownPayment
  {
    Installment(NewId(xs), DecimalString(|xs| + 1), "Dec", "2025", Num(0.0), DuringConstruction)
  }

  /**
   * Appending keeps every row, adds one row at the end with a fresh id,
   * keeps ids distinct and positive, and leaves the total untouched
   * because the new row contributes 0%.
   */
  lemma AddProperties(xs: seq<Installment>)
    ensures var ys := xs + [NewInstallment(xs)];
      && |ys| == |xs| + 1
      && ys[..|xs|] == xs
      && (forall i :: 0 <= i < |xs| ==> xs[i].id != ys[|xs|].id)
      && (DistinctIds(xs) ==> DistinctIds(ys))
      && (PositiveIds(xs) ==> PositiveIds(ys))
      && TotalPercent(ys) == TotalPercent(xs)
  {
    var ys := xs + [NewInstallment(xs)];
    assert ys[..|xs|] == xs;
  }

  /** The new row: display index `String(length + 1)`, December 2025, 0%, during construction. */
  lemma NewInstallmentFields(xs: seq<Installment>)
    ensures NewInstallment(xs).displayId == DecimalString(|xs| + 1)
    ensures NewInstallment(xs).month == "Dec" && NewInstallment(xs).year == "2025"
    ensures NewInstallment(xs).percent == Num(0.0)
    ensures NewInstallment(xs).paymentType == DuringConstruction
    ensures xs == [] ==> NewInstallment(xs).id == 1
  {
  }

  // ---- removeInstallment ----

  /** `installments.filter(item => item.id !== id)`. */
  function Removed(xs: seq<Installment>, id: int): (ys: seq<Installment>)
    ensures |ys| <= |xs|
    ensures forall y :: y in ys <==> y in xs && y.id != id
  {
    if xs == [] then []
    else (if xs[0].id != id then [xs[0]] else []) + Removed(xs[1..], id)
  }

  /** Removing an id that no row carries changes nothing. */
  lemma {:induction false} RemoveAbsent(xs: seq<Installment>, id: int)
    requires forall i :: 0 <= i < |xs| ==> xs[i].id != id
    ensures Removed(xs, id) == xs
  {
    if xs != [] {
      RemoveAbsent(xs[1..], id);
      assert [xs[0]] + xs[1..] == xs;
    }
  }

  /** With distinct ids, removing the id of row `k` deletes exactly that row and keeps the rest in order. */
  lemma {:induction false} RemovePresent(xs: seq<Installment>, k: int)
    requires DistinctIds(xs)
    requires 0 <= k < |xs|
    ensures Removed(xs, xs[k].id) == xs[..k] + xs[k + 1..]
  {
    var id := xs[k].id;
    if k == 0 {
      RemoveAbsent(xs[1..], id);
    } else {
      RemovePresent(xs[1..], k - 1);
      assert xs[1..][k - 1] == xs[k];
      assert [xs[0]] + (xs[1..][..k - 1] + xs[1..][k..]) == xs[..k] + xs[k + 1..];
    }
  }

  /** Removing keeps ids distinct and positive. */
  lemma RemoveKeepsIds(xs: seq<Installment>, id: int)
    requires DistinctIds(xs)
    ensures DistinctIds(Removed(xs, id))
    ensures PositiveIds(xs) ==> PositiveIds(Removed(xs, id))
  {
    if k :| 0 <= k < |xs| && xs[k].id == id {
      RemovePresent(xs, k);
      var ys := xs[..k] + xs[k + 1..];
      assert forall i :: 0 <= i < |ys| ==> ys[i] == xs[if i < k then i else i + 1];
    } else {
      RemoveAbsent(xs, id);
    }
  }

  /** Removing row `k` shortens the table by one and takes that row's share off the total. */
  lemma RemovePresentTotal(xs: seq<Installment>, k: int)
    requires DistinctIds(xs)
    requires 0 <= k < |xs|
    ensures |Removed(xs, xs[k].id)| == |xs| - 1
    ensures TotalPercent(Removed(xs, xs[k].id)) == TotalPercent(xs) - Contribution(xs[k].percent)
  {
    RemovePresent(xs, k);
    var before, row, after := xs[..k], [xs[k]], xs[k + 1..];
    assert xs == before + (row + after);
    TotalPercentConcat(before, after);
    TotalPercentConcat(before, row + after);
    TotalPercentConcat(row, after);
    assert TotalPercent(row) == Contribution(xs[k].percent) by {
      assert row[..0] == [];
    }
  }

  // ---- updateInstallment ----

  /** `{ ...item, [field]: value }` for the edited field. */
  function Apply(x: Installment, e: Edit): (y: Installment)
    ensures y.id == x.id && y.year == x.year
    ensures y.displayId == (if e.SetDisplayId? then e.text else x.displayId)
    ensures y.month == (if e.SetMonth? then e.month else x.month)
    ensures y.percent == (if e.SetPercent? then e.percent else x.percent)
    ensures y.paymentType == (if e.SetType? then e.paymentType else x.paymentType)
  {
    match e
    case SetDisplayId(t) => x.(displayId := t)
    case SetMonth(m) => x.(month := m)
    case SetPercent(p) => x.(percent := p)
    case SetType(t) => x.(paymentType := t)
  }

  /** `installments.map(item => item.id === id ? { ...item, [field]: value } : item)`. */
  function Updated(xs: seq<Installment>, id: int, e: Edit): (ys: seq<Installment>)
    ensures |ys| == |xs|
    ensures forall i :: 0 <= i < |xs| ==> ys[i].id == xs[i].id
    ensures forall i :: 0 <= i < |xs| && xs[i].id != id ==> ys[i] == xs[i]
    ensures forall i :: 0 <= i < |xs| && xs[i].id == id ==> ys[i] == Apply(xs[i], e)
  {
    seq(|xs|, i requires 0 <= i < |xs| => if xs[i].id == id then Apply(xs[i], e) else xs[i])
  }

  /** An edit keeps the ids, so distinctness and positivity survive it. */
  lemma UpdateKeepsIds(xs: seq<Installment>, id: int, e: Edit)
    ensures DistinctIds(xs) ==> DistinctIds(Updated(xs, id, e))
    ensures PositiveIds(xs) ==> PositiveIds(Updated(xs, id, e))
  {
  }

  /** With distinct ids, an edit touches at most the one row carrying the id. */
  lemma UpdateUnique(xs: seq<Installment>, k: int, e: Edit)
    requires DistinctIds(xs)
    requires 0 <= k < |xs|
    ensures Updated(xs, xs[k].id, e) == xs[k := Apply(xs[k], e)]
  {
  }

  /** Editing anything but a percentage leaves the total unchanged. */
  lemma {:induction false} UpdateKeepsTotal(xs: seq<Installment>, id: int, e: Edit)
    requires !e.SetPercent?
    ensures TotalPercent(Updated(xs, id, e)) == TotalPercent(xs)
  {
    if xs != [] {
      var n := |xs| - 1;
      var ys := Updated(xs, id, e);
      assert ys[..n] == Updated(xs[..n], id, e);
      UpdateKeepsTotal(xs[..n], id, e);
      assert ys[n].percent == xs[n].percent;
    }
  }

  /** Setting the percentage of row `k` moves the total by the difference of old and new value. */
  lemma UpdatePercentTotal(xs: seq<Installment>, k: int, p: Percent)
    requires DistinctIds(xs)
    requires 0 <= k < |xs|
    ensures TotalPercent(Updated(xs, xs[k].id, SetPercent(p)))
            == TotalPercent(xs) - Contribution(xs[k].percent) + Contribution(p)
  {
    UpdateUnique(xs, k, SetPercent(p));
    TotalPercentReplace(xs, k, Apply(xs[k], SetPercent(p)));
  }

  /** `setActiveDropdownId(null)` after a type or month edit; other edits leave the dropdown alone. */
  function DropdownAfterEdit(d: Dropdown, e: Edit): (r: Dropdown)
    ensures e.SetType? || e.SetMonth? ==> r == Closed
    ensures e.SetDisplayId? || e.SetPercent? ==> r == d
  {
    if e.SetType? || e.SetMonth? then Closed else d
  }

  // ---- Progress graph and row dropdowns ----

  /** `count > 1 ? (index / (count - 1)) * 100 : 0`, the node's left offset in percent. */
  function PositionPercent(index: int, count: int): (p: real)
    ensures count <= 1 || index == 0 ==> p == 0.0
    ensures count > 1 && index == count - 1 ==> p == 100.0
  {
    if count > 1 then
      var d := (count - 1) as real;
      assert index == count - 1 ==> index as real / d == 1.0;
      (index as real / d) * 100.0
    else 0.0
  }

  /** Nodes spread over the bar: the first at 0%, the last at 100%, all in between and in order. */
  lemma PositionPercentProperties(i: int, j: int, count: int)
    requires 0 <= i <= j < count
    ensures PositionPercent(0, count) == 0.0
    ensures count > 1 ==> PositionPercent(count - 1, count) == 100.0
    ensures 0.0 <= PositionPercent(i, count) <= PositionPercent(j, count) <= 100.0
    ensures count <= 1 ==> PositionPercent(i, count) == 0.0
  {
    if count > 1 {
      var d := (count - 1) as real;
      DivMonotone(0.0, i as real, d);
      DivMonotone(i as real, j as real, d);
      DivMonotone(j as real, d, d);
    }
  }

  /**
   * Pressing a row's type label: a down-payment row has no menu, so nothing
   * changes; any other row toggles its own type menu.
   */
  function TypeLabelPressed(x: Installment, d: Dropdown): (r: Dropdown)
    ensures x.paymentType == DownPayment ==> r == d
    ensures x.paymentType != DownPayment ==> (r == TypeMenu(x.id) <==> d != TypeMenu(x.id))
    ensures x.paymentType != DownPayment ==> r == Closed || r == TypeMenu(x.id)
  {
    if x.paymentType != DownPayment then (if d == TypeMenu(x.id) then Closed else TypeMenu(x.id))
    else d
  }

  /** `isTypeDropdownOpen = activeDropdownId === inst.id`. */
  function TypeMenuOpen(x: Installment, d: Dropdown): (b: bool)
    ensures b ==> OverlayVisible(d)
    ensures b <==> d.TypeMenu? && d.id == x.id
  {
    d == TypeMenu(x.id)
  }

  /** With distinct ids, at most one row shows its type menu. */
  lemma AtMostOneTypeMenu(xs: seq<Installment>, d: Dropdown, i: int, j: int)
    requires DistinctIds(xs)
    requires 0 <= i < |xs| && 0 <= j < |xs|
    requires TypeMenuOpen(xs[i], d) && TypeMenuOpen(xs[j], d)
    ensures i == j
  {
  }

  /** The click-away overlay shows exactly while a type menu is open; the month modal, while the picker is. */
  function OverlayVisible(d: Dropdown): (b: bool)
    ensures b <==> d.TypeMenu?
  {
    d != Closed && !d.MonthMenu?
  }

  /** `installments.find(inst => inst.id === currentInstallmentId)`. */
  function Find(xs: seq<Installment>, id: int): (r: Option<Installment>)
    ensures r.None? <==> forall k :: 0 <= k < |xs| ==> xs[k].id != id
    ensures r.Some? ==> exists k :: 0 <= k < |xs| && xs[k] == r.value && r.value.id == id
  {
    if xs == [] then None
    else if xs[0].id == id then Some(xs[0])
    else
      var r := Find(xs[1..], id);
      assert forall k :: 1 <= k < |xs| ==> xs[k] == xs[1..][k - 1];
      r
  }

  /** After picking month `m` for a row, the picker marks `m` as that row's selected month. */
  lemma ChosenMonthIsSelected(xs: seq<Installment>, k: int, m: string)
    requires 0 <= k < |xs|
    ensures Find(Updated(xs, xs[k].id, SetMonth(m)), xs[k].id).Some?
    ensures Find(Updated(xs, xs[k].id, SetMonth(m)), xs[k].id).value.month == m
  {
  }

  // ---- The screen's state ----

  /** The four rows the screen starts with: 5% + 30% + 5% + 50%. */
  function InitialInstallments(): (xs: seq<Installment>)
    ensures |xs| == 4
    ensures DistinctIds(xs) && PositiveIds(xs)
    ensures TotalPercent(xs) == 90.0
  {
    var xs :=
      [ Installment(1, "1", "Nov", "2025", Num(5.0), DownPayment),
        Installment(2, "2", "Nov", "2025", Num(30.0), DuringConstruction),
        Installment(3, "3", "Nov", "2025", Num(5.0), DuringConstruction),
        Installment(4, "4", "Nov", "2025", Num(50.0), OnHandover) ];
    assert TotalPercent(xs[..1]) == 5.0 by { assert xs[..1][..0] == []; }
    assert TotalPercent(xs[..2]) == 35.0 by { assert xs[..2][..1] == xs[..1]; }
    assert TotalPercent(xs[..3]) == 40.0 by { assert xs[..3][..2] == xs[..2]; }
    assert xs[..4] == xs;
    assert xs[..3] == xs[..|xs| - 1];
    xs
  }

  class PaymentDetails {
    var installments: seq<Installment>
    var activeDropdown: Dropdown

    ghost predicate Valid()
      reads this
    {
      DistinctIds(installments) && PositiveIds(installments)
    }

    constructor ()
      ensures Valid()
      ensures installments == InitialInstallments() && activeDropdown == Closed
    {
      installments := InitialInstallments();
      activeDropdown := Closed;
    }

    /** `addInstallment`. */
    method AddInstallment()
      requires Valid()
      modifies this
      ensures Valid()
      ensures installments == old(installments) + [NewInstallment(old(installments))]
      ensures TotalPercent(installments) == TotalPercent(old(installments))
      ensures activeDropdown == old(activeDropdown)
    {
      AddProperties(installments);
      installments := installments + [NewInstallment(installments)];
    }

    /** `removeInstallment`. */
    method RemoveInstallment(id: int)
      requires Valid()
      modifies this
      ensures Valid()
      ensures installments == Removed(old(installments), id)
      ensures activeDropdown == old(activeDropdown)
    {
      RemoveKeepsIds(installments, id);
      installments := Removed(installments, id);
    }

    /** `updateInstallment`: edit the matching row, then close the dropdown after a type or month pick. */
    method UpdateInstallment(id: int, e: Edit)
      requires Valid()
      modifies this
      ensures Valid()
      ensures installments == Updated(old(installments), id, e)
      ensures activeDropdown == DropdownAfterEdit(old(activeDropdown), e)
    {
      UpdateKeepsIds(installments, id, e);
      installments := Updated(installments, id, e);
      if e.SetType? || e.SetMonth? {
        activeDropdown := Closed;
      }
    }

    /** Pressing a row's type label. */
    method PressTypeLabel(x: Installment)
      modifies this
      ensures installments == old(installments)
      ensures activeDropdown == TypeLabelPressed(x, old(activeDropdown))
    {
      if x.paymentType != DownPayment {
        activeDropdown := if activeDropdown == TypeMenu(x.id) then Closed else TypeMenu(x.id);
      }
    }

    /** Pressing a row's month: open the month picker for that row. */
    method OpenMonthPicker(id: int)
      modifies this
      ensures installments == old(installments)
      ensures activeDropdown == MonthMenu(id)
    {
      activeDropdown := MonthMenu(id);
    }

    /** The overlay, the modal backdrop or the back gesture: close whatever is open. */
    method CloseDropdown()
      modifies this
      ensures installments == old(installments)
      ensures activeDropdown == Closed
    {
      activeDropdown := Closed;
    }

    /** Picking a month in the open picker; a falsy (zero) row id is ignored. */
    method PickMonth(m: string)
      requires Valid()
      requires activeDropdown.MonthMenu?
      modifies this
      ensures Valid()
      ensures old(activeDropdown.id) != 0 ==>
        installments == Updated(old(installments), old(activeDropdown.id), SetMonth(m)) &&
        activeDropdown == Closed
      ensures old(activeDropdown.id) == 0 ==> installments == old(installments) && activeDropdown == old(activeDropdown)
    {
      var current := activeDropdown.id;
      if current != 0 {
        UpdateInstallment(current, SetMonth(m));
      }
    }
  }
}
