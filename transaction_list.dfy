/** The ledger view of src/components/TransactionList.tsx: a total folded over
    the stored amounts, a coloured balance, and one row per transaction. */
module TransactionList {
  import opened Types

  /** `transactions.reduce((sum, t) => sum + t.amount, 0)`: a left fold over
      the amounts as stored, whatever their `type`. */
  function Total(ts: seq<Transaction>): int {
    if ts == [] then 0 else Total(ts[..|ts| - 1]) + ts[|ts| - 1].amount
  }

  /** The arithmetic sum of the stored amounts, taken from the front. */
  function SumAmounts(ts: seq<Transaction>): int {
    if ts == [] then 0 else ts[0].amount + SumAmounts(ts[1..])
  }

  /** The fold splits over concatenation. */
  lemma {:induction false} TotalAppend(a: seq<Transaction>, b: seq<Transaction>)
    ensures Total(a + b) == Total(a) + Total(b)
    decreases |b|
  {
    if b == [] {
      assert a + b == a;
    } else {
      var init := b[..|b| - 1];
      assert (a + b)[..|a + b| - 1] == a + init;
      TotalAppend(a, init);
    }
  }

  /** Prepending `t` changes the total by exactly `t.amount`. */
  lemma TotalPrepend(t: Transaction, ts: seq<Transaction>)
    ensures Total([t] + ts) == t.amount + Total(ts)
  {
    TotalAppend([t], ts);
    assert [t][..0] == [];
  }

  /** The fold is the arithmetic sum of the amounts; the empty list gives 0. */
  lemma {:induction false} TotalIsSum(ts: seq<Transaction>)
    ensures Total(ts) == SumAmounts(ts)
    decreases |ts|
  {
    if ts != [] {
      assert ts == [ts[0]] + ts[1..];
      TotalPrepend(ts[0], ts[1..]);
      TotalIsSum(ts[1..]);
    }
  }

  /** Taking the row at `j` out of the list takes its amount off the total. */
  lemma TotalRemove(b: seq<Transaction>, j: nat)
    requires j < |b|
    ensures Total(b) == b[j].amount + Total(b[..j] + b[j + 1..])
  {
    var p, x, q := b[..j], b[j], b[j + 1..];
    assert b == (p + [x]) + q;
    TotalAppend(p + [x], q);
    assert (p + [x])[..|p + [x]| - 1] == p;
    TotalAppend(p, q);
  }

  /** Taking the row at `j` out of the list takes one copy of it out of its multiset. */
  lemma MultisetRemove(b: seq<Transaction>, j: nat)
    requires j < |b|
    ensures multiset(b[..j] + b[j + 1..]) == multiset(b) - multiset{b[j]}
  {
    assert b == b[..j] + [b[j]] + b[j + 1..];
  }

  /** The total does not depend on the order of the list. */
  lemma {:induction false} TotalPermutation(a: seq<Transaction>, b: seq<Transaction>)
    requires multiset(a) == multiset(b)
    ensures Total(a) == Total(b)
    decreases |a|
  {
    if a == [] {
      assert |b| == |multiset(b)| == 0;
    } else {
      var x := a[0];
      assert x in multiset(b);
      var j :| 0 <= j < |b| && b[j] == x;
      MultisetRemove(b, j);
      assert a == [x] + a[1..];
      assert multiset(a[1..]) == multiset(a) - multiset{x};
      TotalPermutation(a[1..], b[..j] + b[j + 1..]);
      TotalRemove(b, j);
      TotalPrepend(x, a[1..]);
    }
  }

  /** The total reads nothing but the amounts: lists with the same amounts,
      position by position, have the same total whatever their types. */
  lemma {:induction false} TotalReadsOnlyAmounts(ts: seq<Transaction>, us: seq<Transaction>)
    requires |ts| == |us|
    requires forall i :: 0 <= i < |ts| ==> ts[i].amount == us[i].amount
    ensures Total(ts) == Total(us)
    decreases |ts|
  {
    if ts != [] {
      TotalReadsOnlyAmounts(ts[..|ts| - 1], us[..|us| - 1]);
    }
  }

  /** An expense stored with a positive amount raises the total. */
  lemma ExpenseRaisesTotal(t: Transaction, ts: seq<Transaction>)
    requires t.kind == Expense && t.amount > 0
    ensures Total([t] + ts) > Total(ts)
  {
    TotalPrepend(t, ts);
  }

  datatype Color = Green | Red

  datatype Icon = ArrowUpRight | ArrowDownRight

  /** The "Total Balance" figure: its colour class and the magnitude shown. */
  datatype Balance = Balance(color: Color, magnitude: nat)

  /** One rendered row. */
  datatype Row = Row(category: string, description: string, color: Color, icon: Icon, magnitude: nat)

  /** `Math.abs`. */
  function Abs(x: int): nat {
    if x < 0 then -x else x
  }

  /** Green when `total >= 0`, red otherwise; the figure is `Math.abs(total)`. */
  function BalanceOf(ts: seq<Transaction>): Balance {
    var total := Total(ts);
    Balance(if total >= 0 then Green else Red, Abs(total))
  }

  /** The balance as a reader takes it: green is plus, red is minus. */
  function SignedValue(b: Balance): int {
    if b.color == Green then b.magnitude else -(b.magnitude as int)
  }

  /** The displayed balance loses nothing: colour and figure give back the total,
      and green appears exactly when the total is not negative. */
  lemma BalanceShowsTotal(ts: seq<Transaction>)
    ensures SignedValue(BalanceOf(ts)) == Total(ts)
    ensures BalanceOf(ts).color == Green <==> Total(ts) >= 0
  {
  }

  /** A row: the colour and the arrow follow `type`, the figure is `Math.abs(amount)`. */
  function RowOf(t: Transaction): Row {
    Row(t.category, t.description,
        if t.kind == Income then Green else Red,
        if t.kind == Income then ArrowUpRight else ArrowDownRight,
        Abs(t.amount))
  }

  /** `transactions.map(...)`: one row per transaction, in list order. */
  function Rows(ts: seq<Transaction>): (rs: seq<Row>)
    ensures |rs| == |ts|
    ensures forall i :: 0 <= i < |ts| ==> rs[i] == RowOf(ts[i])
  {
    if ts == [] then [] else [RowOf(ts[0])] + Rows(ts[1..])
  }

  /** A row never shows the sign of its amount: negating the amount changes nothing. */
  lemma RowIgnoresSign(t: Transaction)
    ensures RowOf(t.(amount := -t.amount)) == RowOf(t)
  {
  }

  /** Colour and arrow are chosen by `type` alone. */
  lemma RowStyleByKind(t: Transaction, u: Transaction)
    requires t.kind == u.kind
    ensures RowOf(t).color == RowOf(u).color && RowOf(t).icon == RowOf(u).icon
  {
  }

  /** A single expense of 50.00 shows a red row but a green balance of 50.00:
      the total counts the stored sign, the row only the type. */
  lemma PositiveExpenseShowsGreen(t: Transaction)
    requires t.kind == Expense && t.amount == 5000
    ensures RowOf(t).color == Red
    ensures BalanceOf([t]) == Balance(Green, 5000)
  {
    TotalPrepend(t, []);
  }
}
