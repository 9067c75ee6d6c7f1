/** The new-sale form of the Sales page (client/src/pages/Sales.tsx): product
    lines, installment slots, the automatic split of the balance when an
    installment amount is typed, and the checks and cents conversion done on
    submission. Form amounts are reais held as `real`; NaN is `Unset`. */
module SaleForm {
  import opened Wrappers
  import opened Schema
  import opened Currency
  import opened Calendar
  import opened Seqs
  import opened ExportFilter

  /** A form amount in reais; `Unset` is the NaN of an empty field. */
  datatype Reais = Unset | Set(value: real)

  /** `isNaN(x) ? 0 : x`. */
  function Effective(a: Reais): real
  {
    if a.Unset? then 0.0 else a.value
  }

  datatype ProductLine = ProductLine(description: string, price: Reais, quantity: int)

  /** An installment slot; `dueDate` is the chosen day, None while the date
      field is empty. */
  datatype Slot = Slot(number: int, dueDate: Option<int>, amount: Reais)

  /** Difference under which the typed amounts count as matching the total. */
  const Tolerance: real := 0.01

  // ---------------------------------------------------------------------
  // Totals
  // ---------------------------------------------------------------------

  function LineValue(p: ProductLine): real
  {
    Effective(p.price) * p.quantity as real
  }

  /** `calculateTotal`: price times quantity summed over the lines, an unset
      price counting as 0. */
  function CalculateTotal(products: seq<ProductLine>): real
  {
    if products == [] then 0.0
    else CalculateTotal(products[..|products| - 1]) + LineValue(products[|products| - 1])
  }

  /** The sum of the slot amounts, an unset amount counting as 0. */
  function SlotsSum(slots: seq<Slot>): real
  {
    if slots == [] then 0.0
    else SlotsSum(slots[..|slots| - 1]) + Effective(slots[|slots| - 1].amount)
  }

  /** The sum of the slot amounts other than the one at `index`. */
  function OthersSum(slots: seq<Slot>, index: int): real
  {
    if slots == [] then 0.0
    else
      OthersSum(slots[..|slots| - 1], index)
      + (if |slots| - 1 == index then 0.0 else Effective(slots[|slots| - 1].amount))
  }

  /** The line total of a list is the sum of the totals of its parts. */
  lemma {:induction false} CalculateTotalConcat(a: seq<ProductLine>, b: seq<ProductLine>)
    ensures CalculateTotal(a + b) == CalculateTotal(a) + CalculateTotal(b)
    decreases |b|
  {
    if b == [] {
      assert a + b == a;
    } else {
      assert (a + b)[..|a + b| - 1] == a + b[..|b| - 1];
      CalculateTotalConcat(a, b[..|b| - 1]);
    }
  }

  /** `handleAddProduct` appends a blank line, which leaves the total as it is. */
  lemma AddProductKeepsTotal(products: seq<ProductLine>)
    ensures CalculateTotal(products + [ProductLine("", Unset, 1)]) == CalculateTotal(products)
  {
    CalculateTotalConcat(products, [ProductLine("", Unset, 1)]);
    assert [ProductLine("", Unset, 1)][..0] == [];
  }

  /** With non-negative prices and quantities the total is not negative. */
  lemma {:induction false} CalculateTotalNonNegative(products: seq<ProductLine>)
    requires forall i :: 0 <= i < |products| ==> Effective(products[i].price) >= 0.0 && products[i].quantity >= 0
    ensures CalculateTotal(products) >= 0.0
  {
    if products != [] {
      CalculateTotalNonNegative(products[..|products| - 1]);
    }
  }

  lemma {:induction false} OthersSumIsSumLessOne(slots: seq<Slot>, index: int)
    requires 0 <= index < |slots|
    ensures OthersSum(slots, index) == SlotsSum(slots) - Effective(slots[index].amount)
  {
    var n := |slots|;
    if n - 1 != index {
      OthersSumIsSumLessOne(slots[..n - 1], index);
    } else {
      OthersSumNotIn(slots[..n - 1], index);
    }
  }

  lemma {:induction false} OthersSumNotIn(slots: seq<Slot>, index: int)
    requires index >= |slots|
    ensures OthersSum(slots, index) == SlotsSum(slots)
  {
    if slots != [] {
      OthersSumNotIn(slots[..|slots| - 1], index);
    }
  }

  /** Replacing one slot changes the sum by the difference of the amounts. */
  lemma {:induction false} SlotsSumUpdate(slots: seq<Slot>, index: int, s: Slot)
    requires 0 <= index < |slots|
    ensures SlotsSum(slots[index := s]) == SlotsSum(slots) - Effective(slots[index].amount) + Effective(s.amount)
  {
    var n := |slots|;
    var u := slots[index := s];
    if index == n - 1 {
      assert u[..n - 1] == slots[..n - 1];
    } else {
      assert u[..n - 1] == slots[..n - 1][index := s];
      SlotsSumUpdate(slots[..n - 1], index, s);
    }
  }

  // ---------------------------------------------------------------------
  // Adding and removing slots
  // ---------------------------------------------------------------------

  /** `handleAddInstallment`: one more slot, numbered one past the length, with
      no date and no amount. */
  function AddInstallment(slots: seq<Slot>): (r: seq<Slot>)
    ensures |r| == |slots| + 1 && r[..|slots|] == slots
    ensures r[|slots|] == Slot(|slots| + 1, None, Unset)
  {
    slots + [Slot(|slots| + 1, None, Unset)]
  }

  /** `handleRemoveInstallment`: the slot at `index` is dropped and the others
      keep their order and their numbers. */
  function RemoveInstallment(slots: seq<Slot>, index: int): (r: seq<Slot>)
    ensures 0 <= index < |slots| ==> |r| == |slots| - 1
    ensures 0 <= index < |slots| ==> forall i :: 0 <= i < |r| ==> r[i] == slots[if i < index then i else i + 1]
    ensures !(0 <= index < |slots|) ==> r == slots
  {
    if 0 <= index < |slots| then slots[..index] + slots[index + 1..] else slots
  }

  /** Removing the slot just added restores the list. */
  lemma RemoveUndoesAdd(slots: seq<Slot>)
    ensures RemoveInstallment(AddInstallment(slots), |slots|) == slots
  {
    var r := RemoveInstallment(AddInstallment(slots), |slots|);
    assert |r| == |slots|;
    assert forall i :: 0 <= i < |r| ==> r[i] == slots[i];
  }

  /** Slots are never renumbered: removing the first of two slots and adding
      one gives two slots both numbered 2. */
  lemma RemoveThenAddRepeatsNumber()
    ensures var slots := [Slot(1, None, Unset), Slot(2, None, Unset)];
      var after := AddInstallment(RemoveInstallment(slots, 0));
      |after| == 2 && after[0].number == 2 && after[1].number == 2
  {
    var slots := [Slot(1, None, Unset), Slot(2, None, Unset)];
    var removed := RemoveInstallment(slots, 0);
    assert removed[0] == slots[1];
  }

  // ---------------------------------------------------------------------
  // Typing an installment amount
  // ---------------------------------------------------------------------

  /** A slot that the automatic split fills: no amount, or an amount of 0. */
  predicate IsEmpty(s: Slot)
  {
    s.amount == Unset || s.amount == Set(0.0)
  }

  /** Number of empty slots other than the one at `index`. */
  function EmptyCount(slots: seq<Slot>, index: int): nat
  {
    if slots == [] then 0
    else
      EmptyCount(slots[..|slots| - 1], index)
      + (if |slots| - 1 != index && IsEmpty(slots[|slots| - 1]) then 1 else 0)
  }

  /** The slot at position `i` after the split: `share` if it is an empty
      slot other than the one at `index`, unchanged otherwise. */
  function FillSlot(s: Slot, i: int, index: int, share: real): Slot
  {
    if i != index && IsEmpty(s) then s.(amount := Set(share)) else s
  }

  /** Every empty slot other than the one at `index` receives `share`. */
  function Fill(slots: seq<Slot>, index: int, share: real): (r: seq<Slot>)
    ensures |r| == |slots|
    ensures forall i :: 0 <= i < |slots| ==> r[i] == FillSlot(slots[i], i, index, share)
  {
    if slots == [] then []
    else
      var n := |slots|;
      Fill(slots[..n - 1], index, share) + [FillSlot(slots[n - 1], n - 1, index, share)]
  }

  function Max(a: real, b: real): real
  {
    if a >= b then a else b
  }

  /** The slot at `index` with its amount replaced. */
  function WithAmount(slots: seq<Slot>, index: int, amount: real): (r: seq<Slot>)
    requires 0 <= index < |slots|
    ensures |r| == |slots|
  {
    slots[index := slots[index].(amount := Set(amount))]
  }

  /** The slots after `newAmount` is typed into the slot at `index` (the
      amount branch of `handleInstallmentChange`): the slot takes the amount;
      then, in installment mode, a balance above the tolerance is split
      evenly over the other empty slots, and an excess above the tolerance
      is taken back from the edited slot, never below 0. */
  function AfterAmountChange(slots: seq<Slot>, index: int, newAmount: real, mode: PaymentType, total: real): seq<Slot>
    requires 0 <= index < |slots|
  {
    var edited := WithAmount(slots, index, newAmount);
    if mode == Cash then edited else Rebalance(edited, index, total)
  }

  /** Installment mode after the edited slot took its amount: split a
      balance above the tolerance, take back an excess above it. */
  function Rebalance(edited: seq<Slot>, index: int, total: real): seq<Slot>
    requires 0 <= index < |edited|
  {
    var remaining := total - SlotsSum(edited);
    if remaining > Tolerance then SplitBalance(edited, index, remaining)
    else if remaining < -Tolerance then WithAmount(edited, index, Max(0.0, total - OthersSum(edited, index)))
    else edited
  }

  /** `remaining / k` into each of the `k` empty slots, if there are any. */
  function SplitBalance(edited: seq<Slot>, index: int, remaining: real): seq<Slot>
  {
    var k := EmptyCount(edited, index);
    if k > 0 then Fill(edited, index, remaining / k as real) else edited
  }

  /** `k` shares added up. */
  function Shares(k: nat, share: real): real
  {
    if k == 0 then 0.0 else Shares(k - 1, share) + share
  }

  lemma {:induction false} FillSum(slots: seq<Slot>, index: int, share: real)
    ensures SlotsSum(Fill(slots, index, share)) == SlotsSum(slots) + Shares(EmptyCount(slots, index), share)
  {
    if slots != [] {
      var n := |slots|;
      var prefix := slots[..n - 1];
      var filled := Fill(slots, index, share);
      assert filled[..n - 1] == Fill(prefix, index, share);
      FillSum(prefix, index, share);
    }
  }

  /** `k` shares of `x / k` add up to `x`. */
  lemma SharesOfQuotient(k: nat, x: real)
    requires k > 0
    ensures Shares(k, x / k as real) == x
  {
    SharesProduct(k, x / k as real);
  }

  lemma {:induction false} SharesProduct(k: nat, share: real)
    ensures Shares(k, share) == k as real * share
  {
    if k > 0 {
      SharesProduct(k - 1, share);
      assert (k - 1) as real * share + share == k as real * share;
    }
  }

  lemma {:induction false} OthersSumIgnoresIndex(slots: seq<Slot>, index: int, amount: real)
    requires 0 <= index < |slots|
    ensures OthersSum(WithAmount(slots, index, amount), index) == OthersSum(slots, index)
  {
    OthersSumIsSumLessOne(slots, index);
    OthersSumIsSumLessOne(WithAmount(slots, index, amount), index);
    SlotsSumUpdate(slots, index, slots[index].(amount := Set(amount)));
  }

  /** Typing an amount changes amounts only: the slots keep their count,
      numbers and due dates. */
  lemma AmountChangeKeepsSlots(slots: seq<Slot>, index: int, newAmount: real, mode: PaymentType, total: real)
    requires 0 <= index < |slots|
    ensures var r := AfterAmountChange(slots, index, newAmount, mode, total);
      |r| == |slots| &&
      forall i :: 0 <= i < |r| ==> r[i].number == slots[i].number && r[i].dueDate == slots[i].dueDate
  {
  }

  /** In cash mode, or when the typed amounts match the total within the
      tolerance, only the edited slot changes. */
  lemma AmountChangeOnlyEdited(slots: seq<Slot>, index: int, newAmount: real, mode: PaymentType, total: real)
    requires 0 <= index < |slots|
    requires mode == Cash || -Tolerance <= total - (OthersSum(slots, index) + newAmount) <= Tolerance
    ensures AfterAmountChange(slots, index, newAmount, mode, total) == slots[index := slots[index].(amount := Set(newAmount))]
  {
    var edited := WithAmount(slots, index, newAmount);
    OthersSumIsSumLessOne(edited, index);
    OthersSumIgnoresIndex(slots, index, newAmount);
  }

  /** When a balance above the tolerance remains and some other slot is
      empty, every such slot gets an equal share and the amounts then add up
      to the total exactly; the edited slot and the filled-in slots keep
      their amounts. */
  lemma AmountChangeSplitsBalance(slots: seq<Slot>, index: int, newAmount: real, total: real)
    requires 0 <= index < |slots|
    requires total - (OthersSum(slots, index) + newAmount) > Tolerance
    requires exists i :: 0 <= i < |slots| && i != index && IsEmpty(slots[i])
    ensures var r := AfterAmountChange(slots, index, newAmount, Installments, total);
      SlotsSum(r) == total &&
      r[index].amount == Set(newAmount) &&
      (forall i :: 0 <= i < |slots| && i != index && !IsEmpty(slots[i]) ==> r[i] == slots[i]) &&
      (forall i, j ::
        0 <= i < |slots| && 0 <= j < |slots| && i != index && j != index && IsEmpty(slots[i]) && IsEmpty(slots[j])
        ==> r[i].amount == r[j].amount)
  {
    var edited := WithAmount(slots, index, newAmount);
    var remaining := total - SlotsSum(edited);
    assert remaining == total - (OthersSum(slots, index) + newAmount) by {
      OthersSumIsSumLessOne(edited, index);
      OthersSumIgnoresIndex(slots, index, newAmount);
    }
    assert remaining > Tolerance;
    var i :| 0 <= i < |slots| && i != index && IsEmpty(slots[i]);
    EmptyCountPositive(edited, index, i);
    var k := EmptyCount(edited, index);
    var share := remaining / k as real;
    var r := Fill(edited, index, share);
    assert AfterAmountChange(slots, index, newAmount, Installments, total) == r by {
      RebalanceSplits(edited, index, total, remaining);
      SplitFills(edited, index, remaining, k, share);
    }
    assert SlotsSum(r) == total by {
      FillSum(edited, index, share);
      SharesOfQuotient(k, remaining);
    }
    FillAfterEdit(slots, index, newAmount, share, r);
  }

  lemma RebalanceSplits(edited: seq<Slot>, index: int, total: real, remaining: real)
    requires 0 <= index < |edited|
    requires remaining == total - SlotsSum(edited) && remaining > Tolerance
    ensures Rebalance(edited, index, total) == SplitBalance(edited, index, remaining)
  {
    var sum := SlotsSum(edited);
    assert Rebalance(edited, index, total) == SplitBalance(edited, index, total - sum);
  }

  lemma SplitFills(edited: seq<Slot>, index: int, remaining: real, k: nat, share: real)
    requires k == EmptyCount(edited, index) && k > 0 && share == remaining / k as real
    ensures SplitBalance(edited, index, remaining) == Fill(edited, index, share)
  {
  }

  /** The slots after an edit and a split: the edited slot keeps the typed
      amount, the other filled-in slots are untouched, the empty ones take
      the share. */
  lemma FillAfterEdit(slots: seq<Slot>, index: int, newAmount: real, share: real, r: seq<Slot>)
    requires 0 <= index < |slots|
    requires r == Fill(WithAmount(slots, index, newAmount), index, share)
    ensures |r| == |slots| && r[index].amount == Set(newAmount)
    ensures forall i :: 0 <= i < |slots| && i != index && !IsEmpty(slots[i]) ==> r[i] == slots[i]
    ensures forall i :: 0 <= i < |slots| && i != index && IsEmpty(slots[i]) ==> r[i].amount == Set(share)
  {
  }

  lemma {:induction false} EmptyCountPositive(slots: seq<Slot>, index: int, i: int)
    requires 0 <= i < |slots| && i != index && IsEmpty(slots[i])
    ensures EmptyCount(slots, index) > 0
  {
    if i < |slots| - 1 {
      EmptyCountPositive(slots[..|slots| - 1], index, i);
    }
  }

  /** When the typed amounts exceed the total by more than the tolerance, the
      edited slot is lowered to what the others leave, never below 0; the
      amounts then add up to the total whenever the others do not exceed it,
      and the other slots keep their amounts. */
  lemma AmountChangeClampsExcess(slots: seq<Slot>, index: int, newAmount: real, total: real)
    requires 0 <= index < |slots|
    requires total - (OthersSum(slots, index) + newAmount) < -Tolerance
    ensures var r := AfterAmountChange(slots, index, newAmount, Installments, total);
      r[index].amount.Set? && r[index].amount.value >= 0.0 &&
      r[index].amount.value >= total - OthersSum(slots, index) &&
      (OthersSum(slots, index) <= total ==> SlotsSum(r) == total) &&
      (forall i :: 0 <= i < |slots| && i != index ==> r[i] == slots[i])
  {
    var edited := WithAmount(slots, index, newAmount);
    OthersSumIsSumLessOne(edited, index);
    OthersSumIgnoresIndex(slots, index, newAmount);
    var capped := Max(0.0, total - OthersSum(edited, index));
    var r := WithAmount(edited, index, capped);
    OthersSumIsSumLessOne(r, index);
    OthersSumIgnoresIndex(edited, index, capped);
  }

  /** The `reduce` computing the amounts typed so far, the edited slot
      counted with the new amount. */
  method CurrentTotal(slots: array<Slot>, index: int, newAmount: real) returns (sum: real)
    requires 0 <= index < slots.Length && slots[index].amount == Set(newAmount)
    ensures sum == SlotsSum(slots[..])
  {
    sum := 0.0;
    var i := 0;
    while i < slots.Length
      invariant 0 <= i <= slots.Length
      invariant sum == SlotsSum(slots[..i])
    {
      assert slots[..i + 1][..i] == slots[..i];
      if i == index {
        sum := sum + newAmount;
      } else {
        sum := sum + Effective(slots[i].amount);
      }
      i := i + 1;
    }
    assert slots[..i] == slots[..];
  }

  /** The `reduce` over the slots other than the one at `index`. */
  method OtherTotal(slots: array<Slot>, index: int) returns (sum: real)
    ensures sum == OthersSum(slots[..], index)
  {
    sum := 0.0;
    var i := 0;
    while i < slots.Length
      invariant 0 <= i <= slots.Length
      invariant sum == OthersSum(slots[..i], index)
    {
      assert slots[..i + 1][..i] == slots[..i];
      if i != index {
        sum := sum + Effective(slots[i].amount);
      }
      i := i + 1;
    }
    assert slots[..i] == slots[..];
  }

  /** The positions of the empty slots other than the one at `index`, in
      increasing order. */
  method EmptyPositions(slots: array<Slot>, index: int) returns (empties: seq<int>)
    ensures |empties| == EmptyCount(slots[..], index)
    ensures forall t :: 0 <= t < |empties| ==> 0 <= empties[t] < slots.Length
    ensures forall t, u :: 0 <= t < u < |empties| ==> empties[t] < empties[u]
    ensures forall j :: j in empties <==> 0 <= j < slots.Length && j != index && IsEmpty(slots[j])
  {
    empties := [];
    var i := 0;
    while i < slots.Length
      invariant 0 <= i <= slots.Length
      invariant |empties| == EmptyCount(slots[..i], index)
      invariant forall t :: 0 <= t < |empties| ==> 0 <= empties[t] < i
      invariant forall t, u :: 0 <= t < u < |empties| ==> empties[t] < empties[u]
      invariant forall j :: j in empties <==> 0 <= j < i && j != index && IsEmpty(slots[j])
    {
      assert slots[..i + 1][..i] == slots[..i];
      if i != index && IsEmpty(slots[i]) {
        empties := empties + [i];
      }
      i := i + 1;
    }
    assert slots[..i] == slots[..];
  }

  /** The `forEach` giving each listed slot the share. */
  method GiveShare(slots: array<Slot>, empties: seq<int>, share: real)
    requires forall t :: 0 <= t < |empties| ==> 0 <= empties[t] < slots.Length
    requires forall t, u :: 0 <= t < u < |empties| ==> empties[t] < empties[u]
    modifies slots
    ensures forall j :: 0 <= j < slots.Length ==>
      slots[j] == (if j in empties then old(slots[j]).(amount := Set(share)) else old(slots[j]))
  {
    var t := 0;
    while t < |empties|
      invariant 0 <= t <= |empties|
      invariant forall j :: 0 <= j < slots.Length ==>
        slots[j] == (if j in empties[..t] then old(slots[j]).(amount := Set(share)) else old(slots[j]))
    {
      assert empties[..t + 1] == empties[..t] + [empties[t]];
      slots[empties[t]] := slots[empties[t]].(amount := Set(share));
      t := t + 1;
    }
    assert empties[..t] == empties;
  }

  /** The installment-mode part of `handleInstallmentChange`, in place. */
  method RebalanceSlots(slots: array<Slot>, index: int, total: real)
    requires 0 <= index < slots.Length && slots[index].amount.Set?
    modifies slots
    ensures slots[..] == Rebalance(old(slots[..]), index, total)
  {
    var currentTotal := CurrentTotal(slots, index, slots[index].amount.value);
    var remaining := total - currentTotal;
    if remaining > Tolerance {
      SplitBalanceSlots(slots, index, remaining);
    } else if remaining < -Tolerance {
      var otherTotal := OtherTotal(slots, index);
      slots[index] := slots[index].(amount := Set(Max(0.0, total - otherTotal)));
    }
  }

  /** Finding the empty slots and giving each its share, in place. */
  method SplitBalanceSlots(slots: array<Slot>, index: int, remaining: real)
    modifies slots
    ensures slots[..] == SplitBalance(old(slots[..]), index, remaining)
  {
    var empties := EmptyPositions(slots, index);
    if |empties| > 0 {
      var share := remaining / |empties| as real;
      ghost var before := slots[..];
      GiveShare(slots, empties, share);
      assert forall j :: 0 <= j < slots.Length ==> slots[j] == FillSlot(before[j], j, index, share);
    }
  }

  /** The amount branch of `handleInstallmentChange`, working on the slot
      array in place: the typed text is read as an amount, stored in the
      edited slot, and in installment mode the balance is split over the
      empty slots or the excess taken back from the edited slot. */
  method HandleInstallmentAmountChange(slots: array<Slot>, index: int, value: string, mode: PaymentType, products: seq<ProductLine>)
    requires 0 <= index < slots.Length
    modifies slots
    ensures slots[..] == AfterAmountChange(old(slots[..]), index, EnteredAmountAsWritten(value), mode, CalculateTotal(products))
  {
    var newAmount := EnteredAmountAsWritten(value);
    slots[index] := slots[index].(amount := Set(newAmount));
    if mode == Installments {
      RebalanceSlots(slots, index, CalculateTotal(products));
    }
  }

  // ---------------------------------------------------------------------
  // Submission (handleCreateSale)
  // ---------------------------------------------------------------------

  /** The state of the form when it is submitted; `clientId` is None while no
      client is selected, `saleDay` the chosen sale date. */
  datatype SaleFormState = SaleFormState(
    clientId: Option<int>,
    saleDay: int,
    paymentType: PaymentType,
    products: seq<ProductLine>,
    slots: seq<Slot>)

  /** The reasons a submission is refused, in the order they are checked. */
  datatype Rejection = NoClient | IncompleteProduct | NonPositiveTotal | IncompleteInstallment | InstallmentSumMismatch

  /** A line without a description, or without a positive price. */
  predicate IncompleteLine(p: ProductLine)
  {
    p.description == "" || p.price.Unset? || p.price.value <= 0.0
  }

  /** A slot without a due date, or without a positive amount. */
  predicate IncompleteSlot(s: Slot)
  {
    s.dueDate.None? || s.amount.Unset? || s.amount.value <= 0.0
  }

  /** `products.some(...)` for the product check. */
  function AnyIncompleteLine(products: seq<ProductLine>): (b: bool)
    ensures b <==> exists i :: 0 <= i < |products| && IncompleteLine(products[i])
  {
    if products == [] then false
    else IncompleteLine(products[0]) || AnyIncompleteLine(products[1..])
  }

  /** `installments.some(...)` for the installment check. */
  function AnyIncompleteSlot(slots: seq<Slot>): (b: bool)
    ensures b <==> exists i :: 0 <= i < |slots| && IncompleteSlot(slots[i])
  {
    if slots == [] then false
    else IncompleteSlot(slots[0]) || AnyIncompleteSlot(slots[1..])
  }

  /** `Math.round`: the nearest integer, halves rounded up. */
  function Round(x: real): int
  {
    (x + 0.5).Floor
  }

  /** `Math.round(x * 100)`: reais to cents. */
  function ToCents(x: real): int
  {
    Round(x * 100.0)
  }

  function ProductInputs(products: seq<ProductLine>): (r: seq<ProductInput>)
    ensures |r| == |products|
    ensures forall i :: 0 <= i < |r| ==>
      r[i] == ProductInput(products[i].description, ToCents(Effective(products[i].price)), products[i].quantity)
  {
    if products == [] then []
    else
      [ProductInput(products[0].description, ToCents(Effective(products[0].price)), products[0].quantity)]
      + ProductInputs(products[1..])
  }

  /** Sum of the amounts of a list of installment inputs. */
  function CentsSum(inputs: seq<InstallmentInput>): int
  {
    if inputs == [] then 0 else CentsSum(inputs[..|inputs| - 1]) + inputs[|inputs| - 1].amount
  }

  function SlotInput(s: Slot, amount: int): InstallmentInput
  {
    InstallmentInput(s.number, StartOfDay(s.dueDate.GetOr(0)), amount)
  }

  /** The installment payload as the page builds it: every amount rounded to
      cents on its own. */
  function InstallmentCentsAsWritten(slots: seq<Slot>): (r: seq<InstallmentInput>)
    ensures |r| == |slots|
    ensures forall i :: 0 <= i < |r| ==> r[i] == SlotInput(slots[i], ToCents(Effective(slots[i].amount)))
  {
    if slots == [] then []
    else
      var n := |slots|;
      InstallmentCentsAsWritten(slots[..n - 1]) + [SlotInput(slots[n - 1], ToCents(Effective(slots[n - 1].amount)))]
  }

  /** The installment payload with the rounding difference carried by the
      last installment, so that the amounts add up to the total in cents. */
  function InstallmentCents(slots: seq<Slot>, totalCents: int): (r: seq<InstallmentInput>)
    ensures |r| == |slots|
  {
    if slots == [] then []
    else
      var n := |slots|;
      var first := InstallmentCentsAsWritten(slots[..n - 1]);
      first + [SlotInput(slots[n - 1], totalCents - CentsSum(first))]
  }

  /** With the difference carried by the last installment, the amounts add up
      to the total and all but the last are the rounded amounts. */
  lemma InstallmentCentsAddUp(slots: seq<Slot>, totalCents: int)
    requires slots != []
    ensures CentsSum(InstallmentCents(slots, totalCents)) == totalCents
    ensures forall i :: 0 <= i < |slots| - 1 ==>
      InstallmentCents(slots, totalCents)[i].amount == ToCents(Effective(slots[i].amount))
  {
    var n := |slots|;
    var r := InstallmentCents(slots, totalCents);
    assert r[..n - 1] == InstallmentCentsAsWritten(slots[..n - 1]);
  }

  /** `handleCreateSale`: the first failing check refuses the submission;
      otherwise the payload in cents. */
  function SubmitSale(form: SaleFormState): Result<SaleInput, Rejection>
  {
    var total := CalculateTotal(form.products);
    if form.clientId.None? then Err(NoClient)
    else if AnyIncompleteLine(form.products) then Err(IncompleteProduct)
    else if total <= 0.0 then Err(NonPositiveTotal)
    else if form.paymentType == Installments && AnyIncompleteSlot(form.slots) then Err(IncompleteInstallment)
    else if form.paymentType == Installments && SlotsSum(form.slots) != total then Err(InstallmentSumMismatch)
    else
      var totalCents := ToCents(total);
      Ok(SaleInput(
        form.clientId.value,
        StartOfDay(form.saleDay),
        totalCents,
        form.paymentType,
        if form.paymentType == Installments then |form.slots| else 1,
        ProductInputs(form.products),
        if form.paymentType == Installments then Some(InstallmentCentsAsWritten(form.slots)) else None))
  }

  /** The checks run in a fixed order and the first failure wins. */
  lemma SubmitSaleOrder(form: SaleFormState)
    ensures SubmitSale(form) == Err(NoClient) <==> form.clientId.None?
    ensures SubmitSale(form) == Err(IncompleteProduct) <==>
      form.clientId.Some? && exists i :: 0 <= i < |form.products| && IncompleteLine(form.products[i])
    ensures SubmitSale(form) == Err(NonPositiveTotal) <==>
      form.clientId.Some? && (forall i :: 0 <= i < |form.products| ==> !IncompleteLine(form.products[i]))
      && CalculateTotal(form.products) <= 0.0
    ensures SubmitSale(form) == Err(IncompleteInstallment) <==>
      form.clientId.Some? && (forall i :: 0 <= i < |form.products| ==> !IncompleteLine(form.products[i]))
      && CalculateTotal(form.products) > 0.0 && form.paymentType == Installments
      && exists i :: 0 <= i < |form.slots| && IncompleteSlot(form.slots[i])
    ensures SubmitSale(form) == Err(InstallmentSumMismatch) <==>
      form.clientId.Some? && (forall i :: 0 <= i < |form.products| ==> !IncompleteLine(form.products[i]))
      && CalculateTotal(form.products) > 0.0 && form.paymentType == Installments
      && (forall i :: 0 <= i < |form.slots| ==> !IncompleteSlot(form.slots[i]))
      && SlotsSum(form.slots) != CalculateTotal(form.products)
  {
  }

  /** An accepted sale carries the total, prices and amounts in cents, one
      product per line, an installment count of the number of slots (1 for
      cash), no installments for cash, and one installment per slot with
      the slot's number, the start of its due day and its amount rounded to
      cents on its own. */
  lemma SubmitSaleAccepted(form: SaleFormState)
    requires SubmitSale(form).Ok?
    ensures var p := SubmitSale(form).value;
      var total := CalculateTotal(form.products);
      total > 0.0 && p.total == ToCents(total) && p.clientId == form.clientId.value &&
      p.date == StartOfDay(form.saleDay) && p.paymentType == form.paymentType &&
      |p.products| == |form.products| &&
      (forall i :: 0 <= i < |p.products| ==>
         (p.products[i].price == ToCents(form.products[i].price.value) &&
          p.products[i].description == form.products[i].description && p.products[i].description != "")) &&
      (p.installments.None? <==> form.paymentType == Cash) &&
      p.installmentCount == (if form.paymentType == Installments then |form.slots| else 1) &&
      (p.installments.Some? ==>
         |p.installments.value| == |form.slots|
         && forall i :: 0 <= i < |form.slots| ==>
              p.installments.value[i].number == form.slots[i].number
              && p.installments.value[i].dueDate == StartOfDay(form.slots[i].dueDate.value)
              && p.installments.value[i].amount == ToCents(form.slots[i].amount.value))
  {
  }

  /** Rounding every installment to cents on its own can break the sum that
      the form has just checked: for a total of 1,01 and three slots,
      typing 0,50 into the first splits 0,51 into 0,255 twice; the form's
      exact check passes, and the cents are 50 + 26 + 26 = 102 against a
      total of 101. */
  lemma SplitCentsAsWritten()
    ensures var slots := [Slot(1, Some(0), Unset), Slot(2, Some(30), Unset), Slot(3, Some(60), Unset)];
      var after := AfterAmountChange(slots, 0, 0.5, Installments, 1.01);
      SlotsSum(after) == 1.01 &&
      CentsSum(InstallmentCentsAsWritten(after)) == 102 && ToCents(1.01) == 101
  {
    var slots := [Slot(1, Some(0), Unset), Slot(2, Some(30), Unset), Slot(3, Some(60), Unset)];
    var edited := WithAmount(slots, 0, 0.5);
    assert edited == [Slot(1, Some(0), Set(0.5)), Slot(2, Some(30), Unset), Slot(3, Some(60), Unset)];
    assert edited[..2][..1] == edited[..1] && edited[..1][..0] == [];
    assert SlotsSum(edited[..1]) == 0.5;
    assert SlotsSum(edited[..2]) == 0.5;
    assert SlotsSum(edited) == 0.5;
    assert EmptyCount(edited[..1], 0) == 0;
    assert EmptyCount(edited[..2], 0) == 1;
    assert EmptyCount(edited, 0) == 2;
    var after := Fill(edited, 0, 0.255);
    assert after == [Slot(1, Some(0), Set(0.5)), Slot(2, Some(30), Set(0.255)), Slot(3, Some(60), Set(0.255))];
    assert after[..2][..1] == after[..1] && after[..1][..0] == [];
    assert SlotsSum(after[..1]) == 0.5;
    assert SlotsSum(after[..2]) == 0.755;
    assert SlotsSum(after) == 1.01;
    var cents := InstallmentCentsAsWritten(after);
    assert ToCents(0.255) == 26;
    assert cents[..2][..1] == cents[..1] && cents[..1][..0] == [];
    assert CentsSum(cents[..1]) == 50;
    assert CentsSum(cents[..2]) == 76;
    assert CentsSum(cents) == 102;
  }

  // ---------------------------------------------------------------------
  // Sales report filters (handleExportPDF)
  // ---------------------------------------------------------------------

  /** The sales kept for the report: each given filter narrows the list in
      turn (first day, last day, client). */
  function ExportSales(sales: seq<Sale>, f: Filters): seq<Sale>
  {
    var byStart := if f.startDay.Some? then Filter(sales, (s: Sale) => s.date >= StartOfDay(f.startDay.value)) else sales;
    var byEnd := if f.endDay.Some? then Filter(byStart, (s: Sale) => s.date <= EndOfDay(f.endDay.value)) else byStart;
    if f.clientId.Some? then Filter(byEnd, (s: Sale) => s.clientId == f.clientId.value) else byEnd
  }

  /** A sale passes the report filters. */
  predicate Exported(f: Filters, s: Sale)
  {
    InPeriod(f, s.date) && (f.clientId.None? || s.clientId == f.clientId.value)
  }

  /** The chained filters keep, in input order, exactly the sales that pass
      all given filters. */
  lemma ExportSalesIsFilter(sales: seq<Sale>, f: Filters)
    ensures ExportSales(sales, f) == Filter(sales, (s: Sale) => Exported(f, s))
  {
    var p1 := (s: Sale) => f.startDay.None? || s.date >= StartOfDay(f.startDay.value);
    var p2 := (s: Sale) => f.endDay.None? || s.date <= EndOfDay(f.endDay.value);
    var p3 := (s: Sale) => f.clientId.None? || s.clientId == f.clientId.value;
    var p12 := (s: Sale) => p1(s) && p2(s);
    var all := (s: Sale) => Exported(f, s);
    var byStart := if f.startDay.Some? then Filter(sales, (s: Sale) => s.date >= StartOfDay(f.startDay.value)) else sales;
    assert byStart == Filter(sales, p1) by {
      if f.startDay.Some? {
        FilterSame(sales, (s: Sale) => s.date >= StartOfDay(f.startDay.value), p1);
      } else {
        FilterAll(sales, p1);
      }
    }
    var byEnd := if f.endDay.Some? then Filter(byStart, (s: Sale) => s.date <= EndOfDay(f.endDay.value)) else byStart;
    assert byEnd == Filter(byStart, p2) by {
      if f.endDay.Some? {
        FilterSame(byStart, (s: Sale) => s.date <= EndOfDay(f.endDay.value), p2);
      } else {
        FilterAll(byStart, p2);
      }
    }
    FilterFilter(sales, p1, p2, p12);
    var byClient := if f.clientId.Some? then Filter(byEnd, (s: Sale) => s.clientId == f.clientId.value) else byEnd;
    assert byClient == Filter(byEnd, p3) by {
      if f.clientId.Some? {
        FilterSame(byEnd, (s: Sale) => s.clientId == f.clientId.value, p3);
      } else {
        FilterAll(byEnd, p3);
      }
    }
    FilterFilter(sales, p12, p3, all);
  }
}
