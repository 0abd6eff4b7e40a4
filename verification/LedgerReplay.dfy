/** The log, read in order together with the goal refunds that leave no row,
    reproduces every balance at every moment. */
module LedgerReplay {
  import opened Domain
  import opened Ledger
  import opened BankSpec
  import Emi

  /** What happened to balances, in order: rows booked, and refunds credited without a row. */
  datatype Entry = Booked(row: Row) | Refunded(acc: AccNo, amount: int)

  function BalanceAt(l: Ledger, acc: AccNo): int {
    if acc in l.accounts then l.accounts[acc].balance else 0
  }

  function Effect(e: Entry, acc: AccNo): int {
    match e
    case Booked(row) => if row.acc == acc then Sign(row.kind) * row.amount else 0
    case Refunded(a, amount) => if a == acc then amount else 0
  }

  /** The net effect of some entries on one account. */
  function Net(es: seq<Entry>, acc: AccNo): int {
    if es == [] then 0 else Net(es[..|es| - 1], acc) + Effect(es[|es| - 1], acc)
  }

  function Rows(es: seq<Entry>): seq<Row> {
    if es == [] then []
    else Rows(es[..|es| - 1]) + (if es[|es| - 1].Booked? then [es[|es| - 1].row] else [])
  }

  /** The entries of one call: the rows it appends, or the refund it pays. */
  function Entries(s: Store, c: Call): seq<Entry> {
    var before, after := s.ledger.log, Step(s, c).0.ledger.log;
    if |after| == |before| + 1 then [Booked(after[|before|])]
    else if |after| == |before| + 2 then [Booked(after[|before|]), Booked(after[|before| + 1])]
    else if c.DeleteGoal? && c.goal in s.goals && s.goals[c.goal].current > 0 && Live(s.ledger.accounts, c.acc).Some?
    then [Refunded(c.acc, s.goals[c.goal].current)]
    else []
  }

  function Trace(s: Store, calls: seq<Call>): seq<Entry>
    decreases |calls|
  {
    if calls == [] then [] else Entries(s, calls[0]) + Trace(Step(s, calls[0]).0, calls[1..])
  }

  /** l' is l after exactly the entries es: the log grows by their rows, every balance
      moves by their net effect, and every row states the balance at its own moment. */
  ghost predicate Explains(l: Ledger, es: seq<Entry>, l': Ledger) {
    && l'.log == l.log + Rows(es)
    && (forall acc: AccNo :: BalanceAt(l', acc) == BalanceAt(l, acc) + Net(es, acc))
    && (forall i :: 0 <= i < |es| && es[i].Booked? ==>
          es[i].row.balance == BalanceAt(l, es[i].row.acc) + Net(es[..i + 1], es[i].row.acc))
  }

  lemma ExplainsNothing(l: Ledger, l': Ledger)
    requires l'.log == l.log && forall acc: AccNo :: BalanceAt(l', acc) == BalanceAt(l, acc)
    ensures Explains(l, [], l')
  {
  }

  lemma PostExplained(l: Ledger, acc: AccNo, kind: TxnType, amount: int, target: Option<AccNo>, memo: Memo)
    requires acc in l.accounts
    ensures var l' := Post(l, acc, kind, amount, target, memo);
            |l'.log| == |l.log| + 1 && Explains(l, [Booked(l'.log[|l.log|])], l')
  {
    var l' := Post(l, acc, kind, amount, target, memo);
    var e := Booked(l'.log[|l.log|]);
    forall a: AccNo
      ensures Net([e], a) == Effect(e, a)
    {
      assert [e][..0] == [];
    }
    assert Rows([e]) == [e.row] by {
      assert [e][..0] == [];
    }
    assert [e][..1] == [e];
  }

  lemma RefundExplained(l: Ledger, acc: AccNo, amount: int)
    requires acc in l.accounts
    ensures Explains(l, [Refunded(acc, amount)], l.(accounts := Credit(l.accounts, acc, amount)))
  {
    var e := Refunded(acc, amount);
    assert [e][..0] == [];
    forall a: AccNo
      ensures Net([e], a) == Effect(e, a)
    {
    }
  }

  lemma {:induction false} NetConcat(a: seq<Entry>, b: seq<Entry>, acc: AccNo)
    ensures Net(a + b, acc) == Net(a, acc) + Net(b, acc)
    ensures Rows(a + b) == Rows(a) + Rows(b)
    decreases |b|
  {
    if b == [] {
      assert a + b == a;
    } else {
      var front := b[..|b| - 1];
      assert (a + b)[..|a + b| - 1] == a + front;
      NetConcat(a, front, acc);
    }
  }

  lemma ExplainsTrans(l0: Ledger, a: seq<Entry>, l1: Ledger, b: seq<Entry>, l2: Ledger)
    requires Explains(l0, a, l1) && Explains(l1, b, l2)
    ensures Explains(l0, a + b, l2)
  {
    hide Net, Rows, BalanceAt;
    NetConcat(a, b, 0);
    forall acc: AccNo
      ensures BalanceAt(l2, acc) == BalanceAt(l0, acc) + Net(a + b, acc)
    {
      NetConcat(a, b, acc);
    }
    forall i | 0 <= i < |a + b| && (a + b)[i].Booked?
      ensures (a + b)[i].row.balance == BalanceAt(l0, (a + b)[i].row.acc) + Net((a + b)[..i + 1], (a + b)[i].row.acc)
    {
      if i < |a| {
        assert (a + b)[..i + 1] == a[..i + 1];
      } else {
        var j := i - |a|;
        assert (a + b)[..i + 1] == a + b[..j + 1];
        NetConcat(a, b[..j + 1], b[j].row.acc);
      }
    }
  }

  lemma ExecExplained(l: Ledger, op: Op)
    ensures var l', n := Exec(l, op).0, |l.log|;
            || (l' == l && Explains(l, [], l'))
            || (|l'.log| == n + 1 && Explains(l, [Booked(l'.log[n])], l'))
            || (|l'.log| == n + 2 && Explains(l, [Booked(l'.log[n]), Booked(l'.log[n + 1])], l'))
  {
    hide Explains;
    if Screen(op).Some? || Guard(op, Lookup(l, op)).Some? {
      ExplainsNothing(l, l);
    } else {
      match op
      case Deposit(a, amount) => PostExplained(l, a, DEPOSIT, amount, None, Plain);
      case Withdraw(a, amount) => PostExplained(l, a, WITHDRAW, amount, None, Plain);
      case Transfer(s, r, amount) =>
        var mid := Post(l, s, TRANSFER_OUT, amount, Some(r), Plain);
        PostExplained(l, s, TRANSFER_OUT, amount, Some(r), Plain);
        PostExplained(mid, r, TRANSFER_IN, amount, Some(s), Plain);
        var l' := Post(mid, r, TRANSFER_IN, amount, Some(s), Plain);
        var one, two := [Booked(mid.log[|l.log|])], [Booked(l'.log[|mid.log|])];
        ExplainsTrans(l, one, mid, two, l');
        assert one + two == [Booked(l'.log[|l.log|]), Booked(l'.log[|l.log| + 1])];
    }
  }

  lemma StepExplained(s: Store, c: Call)
    ensures Explains(s.ledger, Entries(s, c), Step(s, c).0.ledger)
  {
    hide Explains, Emi.RoundPaise, Emi.CalculateEmi, Exec, EmiRefusal, Screening;
    var l, l' := s.ledger, Step(s, c).0.ledger;
    if c.Money? {
      ExecExplained(l, c.op);
      if l' == l { ExplainsNothing(l, l'); }
    } else if l'.log == l.log {
      if c.DeleteGoal? && Entries(s, c) != [] {
        RefundExplained(l, c.acc, s.goals[c.goal].current);
      } else {
        ExplainsNothing(l, l');
      }
    } else {
      match c
      case Interest(acc) => PostExplained(l, acc, INTEREST, MonthlyInterest(l.accounts[acc].balance), None, Plain);
      case ApproveLoan(id, _) => PostExplained(l, s.loans[id].acc, LOAN_DISBURSEMENT, s.loans[id].principal, None, ForLoan(id));
      case PayEmi(acc, id, instalment, _) =>
        AcceptedPayer(s, acc, id, instalment);
        var loan := s.loans[id];
        PostExplained(l, acc, LOAN_REPAYMENT, Min(if instalment.Some? then instalment.value else loan.emi, loan.remaining), None, ForLoan(id));
      case Contribute(acc, id, amount) => PostExplained(l, acc, TRANSFER_OUT, amount, None, ForGoal(id));
    }
  }

  /** For every store, every call sequence and every prefix of what happened. */
  lemma {:induction false} LogReplaysBalances(s: Store, calls: seq<Call>)
    ensures Explains(s.ledger, Trace(s, calls), Run(s, calls).ledger)
    decreases |calls|
  {
    hide Explains, Step, Entries;
    if calls == [] {
      ExplainsNothing(s.ledger, s.ledger);
    } else {
      var s1 := Step(s, calls[0]).0;
      StepExplained(s, calls[0]);
      LogReplaysBalances(s1, calls[1..]);
      ExplainsTrans(s.ledger, Entries(s, calls[0]), s1.ledger, Trace(s1, calls[1..]), Run(s1, calls[1..]).ledger);
    }
  }
}
