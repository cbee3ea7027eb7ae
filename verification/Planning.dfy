/** The planning loop of a dry run and the executor's limit gate
    (remote_mutation.py, `plan_dry_run`, `execute_production_plan`). */
module Planning {

  /** A candidate row: its identifier and the account that owns it. */
  datatype AccountId = AccountId(rowid: int)

  datatype Candidate = Candidate(id: string, account: AccountId)

  function Min(a: nat, b: nat): nat {
    if a < b then a else b
  }

  /** How many of the candidates belong to an account. */
  function CountOf(rows: seq<Candidate>, account: AccountId): nat {
    if rows == [] then 0
    else CountOf(rows[..|rows| - 1], account) + if rows[|rows| - 1].account == account then 1 else 0
  }

  function Accounts(rows: seq<Candidate>): set<AccountId> {
    set r | r in rows :: r.account
  }

  /** The sum over a set of accounts of what each may contribute. */
  ghost function CappedSum(rows: seq<Candidate>, accounts: set<AccountId>, cap: nat): nat
    decreases accounts
  {
    if accounts == {} then 0
    else
      var a :| a in accounts;
      Min(CountOf(rows, a), cap) + CappedSum(rows, accounts - {a}, cap)
  }

  lemma {:induction false} CappedSumPick(rows: seq<Candidate>, accounts: set<AccountId>, cap: nat, b: AccountId)
    requires b in accounts
    ensures CappedSum(rows, accounts, cap) == Min(CountOf(rows, b), cap) + CappedSum(rows, accounts - {b}, cap)
    decreases accounts
  {
    var a :| a in accounts && CappedSum(rows, accounts, cap) == Min(CountOf(rows, a), cap) + CappedSum(rows, accounts - {a}, cap);
    if a != b {
      CappedSumPick(rows, accounts - {a}, cap, b);
      CappedSumPick(rows, accounts - {b}, cap, a);
      assert accounts - {a} - {b} == accounts - {b} - {a};
    }
  }

  /** Two row lists that give every account of the set the same count give it the same sum. */
  lemma {:induction false} CappedSumCongruent(rows: seq<Candidate>, others: seq<Candidate>, accounts: set<AccountId>, cap: nat)
    requires forall a :: a in accounts ==> CountOf(rows, a) == CountOf(others, a)
    ensures CappedSum(rows, accounts, cap) == CappedSum(others, accounts, cap)
    decreases accounts
  {
    if accounts != {} {
      var a :| a in accounts;
      CappedSumPick(rows, accounts, cap, a);
      CappedSumPick(others, accounts, cap, a);
      CappedSumCongruent(rows, others, accounts - {a}, cap);
    }
  }

  lemma {:induction false} CountOfAbsent(rows: seq<Candidate>, account: AccountId)
    ensures account !in Accounts(rows) <==> CountOf(rows, account) == 0
  {
    if rows != [] {
      var front, last := rows[..|rows| - 1], rows[|rows| - 1];
      assert rows == front + [last];
      CountOfAbsent(front, account);
      assert forall r :: r in rows <==> r in front || r == last;
      assert last.account in Accounts(rows);
    }
  }

  /** What the whole candidate list may contribute when only per-account caps apply. */
  ghost function Capped(rows: seq<Candidate>, cap: nat): nat {
    CappedSum(rows, Accounts(rows), cap)
  }

  /** One more row adds one exactly when its account is still below the cap. */
  lemma {:induction false} CappedStep(rows: seq<Candidate>, row: Candidate, cap: nat)
    ensures Capped(rows + [row], cap) == Capped(rows, cap) + if CountOf(rows, row.account) < cap then 1 else 0
  {
    var all := rows + [row];
    assert all[..|all| - 1] == rows;
    assert forall a :: CountOf(all, a) == CountOf(rows, a) + if a == row.account then 1 else 0;
    assert forall r :: r in all <==> r in rows || r == row;
    assert row in all;
    assert Accounts(all) == Accounts(rows) + {row.account};
    var rest := Accounts(all) - {row.account};
    CappedSumPick(all, Accounts(all), cap, row.account);
    CappedSumCongruent(all, rows, rest, cap);
    if row.account in Accounts(rows) {
      assert Accounts(rows) == Accounts(all);
      CappedSumPick(rows, Accounts(rows), cap, row.account);
    } else {
      assert Accounts(rows) == rest;
      CountOfAbsent(rows, row.account);
    }
  }

  /** `selected` is a subsequence of `rows` when `at` lists the positions taken, in order. */
  ghost predicate TakenAt(rows: seq<Candidate>, selected: seq<Candidate>, at: seq<nat>) {
    && |at| == |selected|
    && (forall i :: 0 <= i < |at| ==> at[i] < |rows| && rows[at[i]] == selected[i])
    && (forall i, j :: 0 <= i < j < |at| ==> at[i] < at[j])
  }

  function Lookup(perAccount: map<AccountId, nat>, account: AccountId): nat {
    if account in perAccount then perAccount[account] else 0
  }

  lemma {:induction false} CountOfStep(rows: seq<Candidate>, row: Candidate)
    ensures forall a :: CountOf(rows + [row], a) == CountOf(rows, a) + if a == row.account then 1 else 0
  {
    assert (rows + [row])[..|rows|] == rows;
  }

  /** What the loop has established once it has looked at `seen`. */
  ghost predicate Greedy(seen: seq<Candidate>, selected: seq<Candidate>, perAccount: map<AccountId, nat>, maxRun: nat, cap: nat) {
    && |selected| == Min(maxRun, Capped(seen, cap))
    && (forall a :: CountOf(selected, a) == Lookup(perAccount, a))
    && (forall a :: CountOf(selected, a) <= Min(CountOf(seen, a), cap))
    && (forall a :: CountOf(selected, a) < Min(CountOf(seen, a), cap) ==> |selected| == maxRun)
  }

  lemma {:induction false} GreedySkips(seen: seq<Candidate>, row: Candidate, selected: seq<Candidate>, perAccount: map<AccountId, nat>, maxRun: nat, cap: nat)
    requires Greedy(seen, selected, perAccount, maxRun, cap)
    requires Lookup(perAccount, row.account) >= cap || |selected| >= maxRun
    ensures Greedy(seen + [row], selected, perAccount, maxRun, cap)
  {
    CappedStep(seen, row, cap);
    CountOfStep(seen, row);
    assert CountOf(selected, row.account) == Lookup(perAccount, row.account);
  }

  lemma {:induction false} GreedyTakes(seen: seq<Candidate>, row: Candidate, selected: seq<Candidate>, perAccount: map<AccountId, nat>, maxRun: nat, cap: nat)
    requires Greedy(seen, selected, perAccount, maxRun, cap)
    requires Lookup(perAccount, row.account) < cap && |selected| < maxRun
    ensures Greedy(seen + [row], selected + [row], perAccount[row.account := Lookup(perAccount, row.account) + 1], maxRun, cap)
  {
    CappedStep(seen, row, cap);
    CountOfStep(seen, row);
    CountOfStep(selected, row);
    assert CountOf(selected, row.account) == Lookup(perAccount, row.account);
    assert CountOf(selected, row.account) == Min(CountOf(seen, row.account), cap);
  }

  lemma {:induction false} TakenAtGrows(seen: seq<Candidate>, row: Candidate, selected: seq<Candidate>, at: seq<nat>)
    requires TakenAt(seen, selected, at)
    ensures TakenAt(seen + [row], selected, at)
    ensures TakenAt(seen + [row], selected + [row], at + [|seen|])
  {
    var all := seen + [row];
    assert all[|seen|] == row && forall i :: 0 <= i < |seen| ==> all[i] == seen[i];
  }

  /** The loop stands at row `i`. */
  ghost predicate Planned(rows: seq<Candidate>, i: nat, selected: seq<Candidate>, perAccount: map<AccountId, nat>, at: seq<nat>, maxRun: nat, cap: nat) {
    i <= |rows| && Greedy(rows[..i], selected, perAccount, maxRun, cap) && TakenAt(rows[..i], selected, at)
  }

  /** Exactly the first `m` taken rows come before row `i`. */
  ghost predicate TakenBefore(at: seq<nat>, i: nat, m: nat) {
    && m <= |at|
    && (forall k :: 0 <= k < m ==> at[k] < i)
    && (forall k :: m <= k < |at| ==> i <= at[k])
  }

  /** When the loop came to row `i`, its account had as many rows as one may have. */
  ghost predicate AtCap(rows: seq<Candidate>, selected: seq<Candidate>, at: seq<nat>, i: nat, cap: nat)
    requires i < |rows| && |at| == |selected|
  {
    exists m: nat :: TakenBefore(at, i, m) && CountOf(selected[..m], rows[i].account) >= cap
  }

  /** The rows looked at whose account had reached its cap by then. */
  ghost function OverCap(rows: seq<Candidate>, selected: seq<Candidate>, at: seq<nat>, i: nat, cap: nat): set<nat>
    requires i <= |rows| && |at| == |selected|
  {
    set j: nat | j < i && AtCap(rows, selected, at, j, cap)
  }

  /** Of the first `i` rows those were taken that found their account below its cap and the plan not full. */
  ghost predicate InTurn(rows: seq<Candidate>, selected: seq<Candidate>, at: seq<nat>, i: nat, maxRun: nat, cap: nat)
    requires i <= |rows| && |at| == |selected|
  {
    forall j: nat :: j < i ==>
      if j in at then !AtCap(rows, selected, at, j, cap)
      else AtCap(rows, selected, at, j, cap) || (|at| == maxRun && forall k :: 0 <= k < |at| ==> at[k] < j)
  }

  lemma {:induction false} AtCapNow(rows: seq<Candidate>, i: nat, selected: seq<Candidate>, perAccount: map<AccountId, nat>, at: seq<nat>, maxRun: nat, cap: nat)
    requires Planned(rows, i, selected, perAccount, at, maxRun, cap) && i < |rows|
    ensures AtCap(rows, selected, at, i, cap) <==> Lookup(perAccount, rows[i].account) >= cap
  {
    assert TakenBefore(at, i, |at|) && selected[..|at|] == selected;
  }

  /** Taking a row settles nothing about those before it, nor about itself. */
  lemma {:induction false} AtCapBefore(rows: seq<Candidate>, selected: seq<Candidate>, at: seq<nat>, i: nat, j: nat, cap: nat)
    requires j <= i < |rows| && |at| == |selected| && forall k :: 0 <= k < |at| ==> at[k] < i
    ensures AtCap(rows, selected + [rows[i]], at + [i], j, cap) <==> AtCap(rows, selected, at, j, cap)
  {
    var more, later := selected + [rows[i]], at + [i];
    if m: nat :| TakenBefore(at, j, m) && CountOf(selected[..m], rows[j].account) >= cap {
      assert TakenBefore(later, j, m) && more[..m] == selected[..m];
    }
    if m: nat :| TakenBefore(later, j, m) && CountOf(more[..m], rows[j].account) >= cap {
      assert later[|at|] == i && m <= |at| && forall k :: 0 <= k < |at| ==> later[k] == at[k];
      assert TakenBefore(at, j, m) && more[..m] == selected[..m];
    }
  }

  /** One more row has been looked at. */
  lemma {:induction false} OverCapNext(rows: seq<Candidate>, selected: seq<Candidate>, at: seq<nat>, i: nat, cap: nat)
    requires i < |rows| && |at| == |selected|
    ensures |OverCap(rows, selected, at, i + 1, cap)| == |OverCap(rows, selected, at, i, cap)| + if AtCap(rows, selected, at, i, cap) then 1 else 0
  {
    var before, after := OverCap(rows, selected, at, i, cap), OverCap(rows, selected, at, i + 1, cap);
    assert after == before + if AtCap(rows, selected, at, i, cap) then {i} else {};
  }

  /** ... and taken. */
  lemma {:induction false} OverCapTaken(rows: seq<Candidate>, selected: seq<Candidate>, at: seq<nat>, i: nat, cap: nat)
    requires i < |rows| && |at| == |selected| && forall k :: 0 <= k < |at| ==> at[k] < i
    requires !AtCap(rows, selected, at, i, cap)
    ensures OverCap(rows, selected + [rows[i]], at + [i], i + 1, cap) == OverCap(rows, selected, at, i, cap)
  {
    forall j: nat | j <= i ensures AtCap(rows, selected + [rows[i]], at + [i], j, cap) <==> AtCap(rows, selected, at, j, cap) {
      AtCapBefore(rows, selected, at, i, j, cap);
    }
  }

  lemma {:induction false} PlannedSkips(rows: seq<Candidate>, i: nat, selected: seq<Candidate>, perAccount: map<AccountId, nat>, at: seq<nat>, maxRun: nat, cap: nat)
    requires Planned(rows, i, selected, perAccount, at, maxRun, cap) && i < |rows|
    requires Lookup(perAccount, rows[i].account) >= cap || |selected| >= maxRun
    ensures Planned(rows, i + 1, selected, perAccount, at, maxRun, cap)
    ensures |OverCap(rows, selected, at, i + 1, cap)| ==
            |OverCap(rows, selected, at, i, cap)| + if Lookup(perAccount, rows[i].account) >= cap then 1 else 0
  {
    AtCapNow(rows, i, selected, perAccount, at, maxRun, cap);
    OverCapNext(rows, selected, at, i, cap);
    assert rows[..i + 1] == rows[..i] + [rows[i]];
    TakenAtGrows(rows[..i], rows[i], selected, at);
    GreedySkips(rows[..i], rows[i], selected, perAccount, maxRun, cap);
  }

  lemma {:induction false} PlannedTakes(rows: seq<Candidate>, i: nat, selected: seq<Candidate>, perAccount: map<AccountId, nat>, at: seq<nat>, maxRun: nat, cap: nat)
    requires Planned(rows, i, selected, perAccount, at, maxRun, cap) && i < |rows|
    requires Lookup(perAccount, rows[i].account) < cap && |selected| < maxRun
    ensures Planned(rows, i + 1, selected + [rows[i]], perAccount[rows[i].account := Lookup(perAccount, rows[i].account) + 1], at + [i], maxRun, cap)
    ensures OverCap(rows, selected + [rows[i]], at + [i], i + 1, cap) == OverCap(rows, selected, at, i, cap)
  {
    AtCapNow(rows, i, selected, perAccount, at, maxRun, cap);
    OverCapTaken(rows, selected, at, i, cap);
    assert rows[..i + 1] == rows[..i] + [rows[i]];
    TakenAtGrows(rows[..i], rows[i], selected, at);
    GreedyTakes(rows[..i], rows[i], selected, perAccount, maxRun, cap);
  }

  /** ... with the skips counted so far. */
  ghost predicate Standing(rows: seq<Candidate>, i: nat, selected: seq<Candidate>, perAccount: map<AccountId, nat>, at: seq<nat>,
                           skippedAccount: nat, skippedGlobal: nat, maxRun: nat, cap: nat) {
    && Planned(rows, i, selected, perAccount, at, maxRun, cap)
    && |selected| + skippedAccount + skippedGlobal == i
    && skippedAccount == |OverCap(rows, selected, at, i, cap)| && InTurn(rows, selected, at, i, maxRun, cap)
  }

  lemma {:induction false} InTurnSkips(rows: seq<Candidate>, i: nat, selected: seq<Candidate>, perAccount: map<AccountId, nat>, at: seq<nat>, maxRun: nat, cap: nat)
    requires Planned(rows, i, selected, perAccount, at, maxRun, cap) && i < |rows| && InTurn(rows, selected, at, i, maxRun, cap)
    requires Lookup(perAccount, rows[i].account) >= cap || |selected| >= maxRun
    ensures InTurn(rows, selected, at, i + 1, maxRun, cap)
  {
    AtCapNow(rows, i, selected, perAccount, at, maxRun, cap);
    assert forall k :: 0 <= k < |at| ==> at[k] < i;
  }

  lemma {:induction false} InTurnTakes(rows: seq<Candidate>, i: nat, selected: seq<Candidate>, perAccount: map<AccountId, nat>, at: seq<nat>, maxRun: nat, cap: nat)
    requires Planned(rows, i, selected, perAccount, at, maxRun, cap) && i < |rows| && InTurn(rows, selected, at, i, maxRun, cap)
    requires Lookup(perAccount, rows[i].account) < cap && |selected| < maxRun
    ensures InTurn(rows, selected + [rows[i]], at + [i], i + 1, maxRun, cap)
  {
    AtCapNow(rows, i, selected, perAccount, at, maxRun, cap);
    forall j: nat | j <= i ensures AtCap(rows, selected + [rows[i]], at + [i], j, cap) <==> AtCap(rows, selected, at, j, cap) {
      AtCapBefore(rows, selected, at, i, j, cap);
    }
    assert forall j :: j in at + [i] <==> j in at || j == i;
  }

  lemma {:induction false} StandingStarts(rows: seq<Candidate>, maxRun: nat, cap: nat)
    ensures Standing(rows, 0, [], map[], [], 0, 0, maxRun, cap)
  {
    assert OverCap(rows, [], [], 0, cap) == {};
  }

  /** The three things that may happen to a row. */
  lemma {:induction false} StandingNext(rows: seq<Candidate>, i: nat, selected: seq<Candidate>, perAccount: map<AccountId, nat>, at: seq<nat>,
                                        skippedAccount: nat, skippedGlobal: nat, maxRun: nat, cap: nat)
    requires Standing(rows, i, selected, perAccount, at, skippedAccount, skippedGlobal, maxRun, cap) && i < |rows|
    ensures var row, taken := rows[i], Lookup(perAccount, rows[i].account);
            if taken >= cap then Standing(rows, i + 1, selected, perAccount, at, skippedAccount + 1, skippedGlobal, maxRun, cap)
            else if |selected| >= maxRun then Standing(rows, i + 1, selected, perAccount, at, skippedAccount, skippedGlobal + 1, maxRun, cap)
            else Standing(rows, i + 1, selected + [row], perAccount[row.account := taken + 1], at + [i], skippedAccount, skippedGlobal, maxRun, cap)
  {
    if Lookup(perAccount, rows[i].account) >= cap || |selected| >= maxRun {
      PlannedSkips(rows, i, selected, perAccount, at, maxRun, cap);
      InTurnSkips(rows, i, selected, perAccount, at, maxRun, cap);
    } else {
      InTurnTakes(rows, i, selected, perAccount, at, maxRun, cap);
      PlannedTakes(rows, i, selected, perAccount, at, maxRun, cap);
    }
  }

  lemma {:induction false} PlannedAll(rows: seq<Candidate>, selected: seq<Candidate>, perAccount: map<AccountId, nat>, at: seq<nat>, maxRun: nat, cap: nat)
    requires Planned(rows, |rows|, selected, perAccount, at, maxRun, cap)
    ensures |selected| == Min(maxRun, Capped(rows, cap)) && TakenAt(rows, selected, at) && |at| == |selected|
    ensures forall a :: CountOf(selected, a) <= Min(CountOf(rows, a), cap)
    ensures forall a :: CountOf(selected, a) < Min(CountOf(rows, a), cap) ==> |selected| == maxRun
  {
    assert rows[..|rows|] == rows;
  }

  /** One turn of the planning loop. */
  method Consider(rows: seq<Candidate>, i: nat, maxRun: nat, maxPerAccount: nat,
                  before: seq<Candidate>, counts: map<AccountId, nat>, account: nat, global: nat, ghost taken: seq<nat>)
    returns (selected: seq<Candidate>, perAccount: map<AccountId, nat>, skippedAccount: nat, skippedGlobal: nat, ghost at: seq<nat>)
    requires Standing(rows, i, before, counts, taken, account, global, maxRun, maxPerAccount) && i < |rows|
    ensures Standing(rows, i + 1, selected, perAccount, at, skippedAccount, skippedGlobal, maxRun, maxPerAccount)
  {
    StandingNext(rows, i, before, counts, taken, account, global, maxRun, maxPerAccount);
    var row := rows[i];
    var used := Lookup(counts, row.account);
    if used >= maxPerAccount { return before, counts, account + 1, global, taken; }
    if |before| >= maxRun { return before, counts, account, global + 1, taken; }
    return before + [row], counts[row.account := used + 1], account, global, taken + [i];
  }

  /** The planning loop.  The plan takes as many rows as the limits allow, in order, never two for the
      same position, and passes over a row only for its account's cap or because the plan is full.  Of the rows left out, those whose account had reached its cap when the loop came to
      them are counted as skipped for the account, and the others as skipped for the run. */
  method PlanDryRun(rows: seq<Candidate>, maxRun: nat, maxPerAccount: nat)
    returns (selected: seq<Candidate>, skippedAccount: nat, skippedGlobal: nat, ghost at: seq<nat>)
    ensures |selected| == Min(maxRun, Capped(rows, maxPerAccount))
    ensures |selected| + skippedAccount + skippedGlobal == |rows|
    ensures |at| == |selected| && skippedAccount == |OverCap(rows, selected, at, |rows|, maxPerAccount)|
    ensures forall a :: CountOf(selected, a) <= Min(CountOf(rows, a), maxPerAccount)
    ensures forall a :: CountOf(selected, a) < Min(CountOf(rows, a), maxPerAccount) ==> |selected| == maxRun
    ensures TakenAt(rows, selected, at) && InTurn(rows, selected, at, |rows|, maxRun, maxPerAccount)
  {
    var perAccount: map<AccountId, nat> := map[];
    selected, skippedAccount, skippedGlobal, at := [], 0, 0, [];
    StandingStarts(rows, maxRun, maxPerAccount);
    for i := 0 to |rows|
      invariant Standing(rows, i, selected, perAccount, at, skippedAccount, skippedGlobal, maxRun, maxPerAccount)
    {
      selected, perAccount, skippedAccount, skippedGlobal, at :=
        Consider(rows, i, maxRun, maxPerAccount, selected, perAccount, skippedAccount, skippedGlobal, at);
    }
    PlannedAll(rows, selected, perAccount, at, maxRun, maxPerAccount);
  }

  // --- The executor's limit gate ---

  datatype Plan = Plan(selectedCount: nat, effectiveMaxPerRun: nat, effectiveMaxPerAccount: nat)

  /** The gate an existing plan has to pass under the limits configured at execution time. */
  predicate PassesLimits(plan: Plan, maxPerRun: nat, maxPerAccount: nat) {
    && plan.selectedCount <= plan.effectiveMaxPerRun
    && plan.selectedCount <= plan.effectiveMaxPerAccount
    && plan.selectedCount <= maxPerRun
    && plan.selectedCount <= maxPerAccount
    && plan.effectiveMaxPerRun <= maxPerRun
    && plan.effectiveMaxPerAccount <= maxPerAccount
  }

  lemma {:induction false} SingleAccountCount(rows: seq<Candidate>, account: AccountId)
    requires forall r :: r in rows ==> r.account == account
    ensures CountOf(rows, account) == |rows|
  {
    if rows != [] {
      assert rows[|rows| - 1] in rows;
      assert forall r :: r in rows[..|rows| - 1] ==> r in rows;
      SingleAccountCount(rows[..|rows| - 1], account);
    }
  }

  /** A plan made for one account, with a limit no larger than the configured one, passes the gate as
      long as no configured limit was lowered below what the plan was made with; lowering either
      limit below the plan's own is refused even when the plan is empty of rows beyond it. */
  lemma {:induction false} SingleAccountPlanPasses(selected: seq<Candidate>, account: AccountId, limit: nat, cap: nat, maxPerRun: nat, maxPerAccount: nat)
    requires forall r :: r in selected ==> r.account == account
    requires |selected| <= limit && CountOf(selected, account) <= cap
    ensures PassesLimits(Plan(|selected|, limit, cap), maxPerRun, maxPerAccount) <==> limit <= maxPerRun && cap <= maxPerAccount
  {
    SingleAccountCount(selected, account);
  }
}
