/**
 * `config/setup_analysis_fields.js`: `executeSqlFile` splits the migration
 * file into statements and runs them in order, stopping at the first
 * failure. Reading the file and the PostgreSQL client are left out: the
 * input is the file's text and `succeeds(i)` says whether the query of
 * statement `i` goes through.
 */
module SetupAnalysisFields {
  import opened Text

  /** `statement.trim() && !statement.trim().startsWith('--')`. */
  predicate Keeps(piece: string) {
    var t := Trim(Js, piece);
    t != [] && !("--" <= t)
  }

  /** The `filter` over the pieces, in order. */
  function Kept(parts: seq<string>): (r: seq<string>)
    ensures |r| <= |parts|
  {
    if parts == [] then []
    else
      var init := Kept(parts[..|parts| - 1]);
      var last := parts[|parts| - 1];
      if Keeps(last) then init + [last] else init
  }

  lemma {:induction false} KeptAppend(a: seq<string>, b: seq<string>)
    ensures Kept(a + b) == Kept(a) + Kept(b)
    decreases |b|
  {
    if b == [] {
      assert a + b == a;
    } else {
      var n := |b| - 1;
      assert (a + b)[..|a + b| - 1] == a + b[..n];
      KeptAppend(a, b[..n]);
    }
  }

  /** The filter keeps exactly the pieces that pass it, in order. */
  lemma KeptAround(a: seq<string>, p: string, b: seq<string>)
    ensures Kept(a + [p] + b) == Kept(a) + (if Keeps(p) then [p] else []) + Kept(b)
  {
    KeptAppend(a + [p], b);
    KeptAppend(a, [p]);
    assert [p][..0] == [];
  }

  /** Every statement the filter lets through passes it. */
  lemma {:induction false} KeptKeeps(parts: seq<string>, k: int)
    requires 0 <= k < |Kept(parts)|
    ensures Keeps(Kept(parts)[k])
  {
    var init := parts[..|parts| - 1];
    if k < |Kept(init)| {
      KeptKeeps(init, k);
    }
  }

  /**
   * A piece that begins with a `--` comment line is dropped as a whole, so
   * the SQL after the comment is never run.
   */
  lemma CommentedPieceDropped(comment: string, sql: string)
    requires |comment| >= 2 && comment[0] == '-' && comment[1] == '-'
    ensures !Keeps(comment + sql)
  {
    var p := comment + sql;
    var t := Trim(Js, p);
    assert LeadingSpaces(Js, p) == 0;
    TrimCovers(p, 1);
    assert p[0..|t|] == t;
    assert t[0] == p[0] && t[1] == p[1];
  }

  /** Trimming a string that starts with a non-space keeps every position up to a non-space. */
  lemma TrimCovers(s: string, k: nat)
    requires k < |s| && LeadingSpaces(Js, s) == 0 && !IsJsSpace(s[k])
    ensures k < |Trim(Js, s)|
  {
    var t := Trim(Js, s);
    BlankFrom(s, |t|);
  }

  lemma BlankFrom(s: string, i: nat)
    requires i <= |s| && Blank(Js, s[i..])
    ensures forall j :: i <= j < |s| ==> IsJsSpace(s[j])
  {
    forall j | i <= j < |s| ensures IsJsSpace(s[j]) {
      assert s[i..][j - i] == s[j];
    }
  }

  /** The statements `executeSqlFile` loops over. */
  function Statements(content: string): seq<string> {
    Kept(Split(content, ';'))
  }

  /** `toUpperCase().startsWith('SELECT')`. */
  predicate IsSelect(statement: string) {
    && |statement| >= 6
    && UpperChar(statement[0]) == 'S' && UpperChar(statement[1]) == 'E' && UpperChar(statement[2]) == 'L'
    && UpperChar(statement[3]) == 'E' && UpperChar(statement[4]) == 'C' && UpperChar(statement[5]) == 'T'
  }

  lemma IsSelectUpper(statement: string)
    ensures IsSelect(statement) <==> "SELECT" <= Upper(statement)
  {
  }

  /** `sqlStatements[i].trim()` for every `i`. */
  function TrimAll(stmts: seq<string>): (ts: seq<string>)
    ensures |ts| == |stmts|
  {
    seq(|stmts|, i requires 0 <= i < |stmts| => Trim(Js, stmts[i]))
  }

  /** Trimmed statement `i` is sent: it is not empty, and not the last when that is a SELECT. */
  predicate Runs(ts: seq<string>, i: int)
    requires 0 <= i < |ts|
  {
    ts[i] != [] && !(i == |ts| - 1 && IsSelect(ts[i]))
  }

  /** A statement that is run: its position in the list and its trimmed text. */
  datatype Planned = Planned(index: nat, statement: string)

  /** The statements among the first `n` that are run, in order. */
  function PlanUpTo(ts: seq<string>, n: nat): (plan: seq<Planned>)
    requires n <= |ts|
    ensures |plan| <= n
  {
    if n == 0 then []
    else
      var init := PlanUpTo(ts, n - 1);
      if Runs(ts, n - 1) then init + [Planned(n - 1, ts[n - 1])] else init
  }

  function Plan(ts: seq<string>): seq<Planned> {
    PlanUpTo(ts, |ts|)
  }

  /** The filter leaves no statement that trims to nothing. */
  lemma StatementsNonEmpty(content: string, i: int)
    requires 0 <= i < |Statements(content)|
    ensures TrimAll(Statements(content))[i] != []
  {
    KeptKeeps(Split(content, ';'), i);
  }

  /**
   * Of non-empty statements only the last can be skipped, and only when it
   * is a SELECT; the others run in order.
   */
  lemma PlanSkipsOnlyFinalSelect(ts: seq<string>)
    requires forall i :: 0 <= i < |ts| ==> ts[i] != []
    ensures |Plan(ts)| == |ts| || (|Plan(ts)| == |ts| - 1 && IsSelect(ts[|ts| - 1]))
    ensures forall i :: 0 <= i < |ts| - 1 ==> Plan(ts)[i] == Planned(i, ts[i])
  {
    if ts != [] {
      var n := |ts| - 1;
      AllRunBefore(ts, n);
      assert Plan(ts)[..n] == PlanUpTo(ts, n);
      forall i | 0 <= i < n ensures Plan(ts)[i] == Planned(i, ts[i]) {
        assert Plan(ts)[..n][i] == Plan(ts)[i];
      }
    }
  }

  /** Before the last statement no non-empty statement is skipped. */
  lemma {:induction false} AllRunBefore(ts: seq<string>, n: nat)
    requires n < |ts| && forall i :: 0 <= i < |ts| ==> ts[i] != []
    ensures |PlanUpTo(ts, n)| == n
    ensures forall i :: 0 <= i < n ==> PlanUpTo(ts, n)[i] == Planned(i, ts[i])
  {
    if n > 0 {
      AllRunBefore(ts, n - 1);
      assert Runs(ts, n - 1);
      assert PlanUpTo(ts, n) == PlanUpTo(ts, n - 1) + [Planned(n - 1, ts[n - 1])];
    }
  }

  /** The position in the plan of the first statement whose query fails, or the plan's length. */
  function FirstFailure(plan: seq<Planned>, succeeds: nat -> bool): (n: nat)
    ensures n <= |plan|
    ensures forall k :: 0 <= k < n ==> succeeds(plan[k].index)
    ensures n < |plan| ==> !succeeds(plan[n].index)
  {
    if plan == [] then 0
    else if !succeeds(plan[0].index) then 0
    else 1 + FirstFailure(plan[1..], succeeds)
  }

  function Texts(plan: seq<Planned>): (r: seq<string>)
    ensures |r| == |plan|
    ensures forall k :: 0 <= k < |plan| ==> r[k] == plan[k].statement
  {
    if plan == [] then [] else Texts(plan[..|plan| - 1]) + [plan[|plan| - 1].statement]
  }

  /** The statements sent: those of the plan up to and including the first that fails. */
  function Sent(plan: seq<Planned>, succeeds: nat -> bool): (r: seq<string>)
    ensures |r| == if FirstFailure(plan, succeeds) == |plan| then |plan| else FirstFailure(plan, succeeds) + 1
    ensures forall k :: 0 <= k < |r| ==> r[k] == plan[k].statement
  {
    var n := FirstFailure(plan, succeeds);
    Texts(plan[..if n == |plan| then n else n + 1])
  }

  /** `PlanUpTo(ts, i)` is the part of the plan before statement `i`. */
  lemma {:induction false} PlanPrefix(ts: seq<string>, i: nat)
    requires i <= |ts|
    ensures PlanUpTo(ts, i) <= Plan(ts)
    decreases |ts| - i
  {
    if i < |ts| {
      PlanPrefix(ts, i + 1);
      var a := PlanUpTo(ts, i);
      var b := PlanUpTo(ts, i + 1);
      assert a <= b;
      assert b <= Plan(ts);
      assert forall k :: 0 <= k < |a| ==> a[k] == b[k] == Plan(ts)[k];
    }
  }

  /**
   * The indexed `for` loop over the statements, up to the first failure;
   * `ts` are the statements already trimmed (`sqlStatements[i].trim()`).
   */
  method RunStatements(ts: seq<string>, succeeds: nat -> bool) returns (ok: bool, executed: seq<string>)
    ensures ok == (FirstFailure(Plan(ts), succeeds) == |Plan(ts)|)
    ensures executed == Sent(Plan(ts), succeeds)
  {
    ghost var plan := Plan(ts);
    executed := [];
    for i := 0 to |ts|
      invariant executed == Texts(PlanUpTo(ts, i))
      invariant AllSucceed(PlanUpTo(ts, i), succeeds)
    {
      var statement := ts[i];
      if statement != [] {
        if i == |ts| - 1 && IsSelect(statement) {
          assert PlanUpTo(ts, i + 1) == PlanUpTo(ts, i);
        } else {
          assert PlanUpTo(ts, i + 1) == PlanUpTo(ts, i) + [Planned(i, statement)];
          executed := executed + [statement];
          AllSucceedSnoc(PlanUpTo(ts, i), Planned(i, statement), succeeds);
          if !succeeds(i) {
            PlanPrefix(ts, i + 1);
            FailureAt(plan, PlanUpTo(ts, i), Planned(i, statement), succeeds);
            assert executed == Texts(plan[..|PlanUpTo(ts, i)| + 1]);
            return false, executed;
          }
        }
      } else {
        assert PlanUpTo(ts, i + 1) == PlanUpTo(ts, i);
      }
    }
    FirstFailureNone(plan, succeeds);
    assert plan[..|plan|] == plan;
    ok := true;
  }

  /**
   * `executeSqlFile`: the trimmed statements sent, in order, and its return
   * value. Every statement before the first failure is sent, the failing one
   * is sent too, and nothing after it.
   */
  method ExecuteSqlFile(content: string, succeeds: nat -> bool) returns (ok: bool, executed: seq<string>)
    ensures ok == (FirstFailure(Plan(TrimAll(Statements(content))), succeeds) == |Plan(TrimAll(Statements(content)))|)
    ensures executed == Sent(Plan(TrimAll(Statements(content))), succeeds)
  {
    var sqlStatements := Statements(content);
    ok, executed := RunStatements(TrimAll(sqlStatements), succeeds);
  }

  /** Every query of the plan goes through. */
  predicate AllSucceed(plan: seq<Planned>, succeeds: nat -> bool) {
    forall k :: 0 <= k < |plan| ==> succeeds(plan[k].index)
  }

  lemma AllSucceedSnoc(plan: seq<Planned>, p: Planned, succeeds: nat -> bool)
    requires AllSucceed(plan, succeeds)
    ensures AllSucceed(plan + [p], succeeds) <==> succeeds(p.index)
  {
    assert (plan + [p])[|plan|] == p;
    assert forall k :: 0 <= k < |plan| ==> (plan + [p])[k] == plan[k];
  }

  /** When every planned query succeeds there is no failure. */
  lemma FirstFailureNone(plan: seq<Planned>, succeeds: nat -> bool)
    requires AllSucceed(plan, succeeds)
    ensures FirstFailure(plan, succeeds) == |plan|
  {
  }

  /** A failure right after a run of successes at the start of the plan is the first failure. */
  lemma FailureAt(plan: seq<Planned>, done: seq<Planned>, p: Planned, succeeds: nat -> bool)
    requires done + [p] <= plan
    requires AllSucceed(done, succeeds) && !succeeds(p.index)
    ensures FirstFailure(plan, succeeds) == |done|
    ensures plan[..|done| + 1] == done + [p]
  {
    assert plan[|done|] == p;
    assert forall k :: 0 <= k < |done| ==> plan[k] == done[k];
  }
}
