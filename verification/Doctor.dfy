/** src/doctor/runner.rs: joining health checks that run concurrently and may panic. */
module Doctor {
  import opened Wrappers
  import opened Sequences

  datatype Severity = Passed | Warning | Error | Skipped

  datatype Finding = Finding(
    checkId: string,
    title: string,
    severity: Severity,
    message: string,
    detail: Option<string>,
    remediation: Option<string>)

  datatype Outcome = Done(finding: Finding) | Panicked(message: string)

  /** A registered check together with what its task will end with. */
  datatype Check = Check(id: string, title: string, outcome: Outcome)

  datatype Report = Report(findings: seq<Finding>, ok: nat, warnings: nat, errors: nat, skipped: nat)

  // ------------------------------------------------------------------ counters

  function Count(findings: seq<Finding>, s: Severity): nat {
    if findings == [] then 0
    else Count(findings[..|findings| - 1], s) + if findings[|findings| - 1].severity == s then 1 else 0
  }

  predicate Tallied(r: Report) {
    && r.ok == Count(r.findings, Passed) && r.warnings == Count(r.findings, Warning)
    && r.errors == Count(r.findings, Error) && r.skipped == Count(r.findings, Skipped)
    && r.ok + r.warnings + r.errors + r.skipped == |r.findings|
  }

  /** `DoctorReport::from_findings`. */
  method FromFindings(findings: seq<Finding>) returns (r: Report)
    ensures r.findings == findings && Tallied(r)
  {
    var ok, warnings, errors, skipped := 0, 0, 0, 0;
    for i := 0 to |findings|
      invariant ok == Count(findings[..i], Passed) && warnings == Count(findings[..i], Warning)
      invariant errors == Count(findings[..i], Error) && skipped == Count(findings[..i], Skipped)
      invariant ok + warnings + errors + skipped == i
    {
      assert findings[..i + 1][..i] == findings[..i];
      match findings[i].severity {
        case Passed => ok := ok + 1;
        case Warning => warnings := warnings + 1;
        case Error => errors := errors + 1;
        case Skipped => skipped := skipped + 1;
      }
    }
    assert findings[..|findings|] == findings;
    r := Report(findings, ok, warnings, errors, skipped);
  }

  // ------------------------------------------------------------- what was joined

  function Indices(n: nat): seq<nat> { seq(n, i => i) }

  /** The order in which `join_next` hands the n tasks back: each once. */
  ghost predicate CompletionOrder(order: seq<nat>, n: nat) { multiset(order) == multiset(Indices(n)) }

  lemma {:induction false} OrderCovers(order: seq<nat>, n: nat, i: nat)
    requires CompletionOrder(order, n)
    ensures i in order <==> i < n
    ensures |order| == n
  {
    assert i in order <==> i in multiset(Indices(n));
    assert i < n ==> Indices(n)[i] == i;
    assert |order| == |multiset(order)| && |Indices(n)| == |multiset(Indices(n))|;
  }

  /** What the task of check i leaves in `panic_messages`. */
  function OwnMessage(checks: seq<Check>, i: nat): seq<string> {
    if i < |checks| && checks[i].outcome.Panicked? then [checks[i].outcome.message] else []
  }

  function Own(checks: seq<Check>): nat -> seq<string> { (i: nat) => OwnMessage(checks, i) }

  /** The panic messages of the tasks in `order`, as they arrive. */
  function Messages(checks: seq<Check>, order: seq<nat>): seq<string> { FlatMap(order, Own(checks)) }

  /** How many of the first i checks panicked. */
  function PanicRank(checks: seq<Check>, i: nat): (r: nat)
    requires i <= |checks|
    ensures r <= i
  {
    if i == 0 then 0 else PanicRank(checks, i - 1) + |OwnMessage(checks, i - 1)|
  }

  function PanicFinding(c: Check, message: string): Finding {
    Finding(c.id, c.title, Error, "DR002: check '" + c.id + "' panicked: " + message, None, None)
  }

  /** The finding of check i, when `messages` were collected. */
  function FindingAt(checks: seq<Check>, messages: seq<string>, i: nat): Finding
    requires i < |checks|
  {
    match checks[i].outcome
    case Done(f) => f
    case Panicked(_) =>
      var k := PanicRank(checks, i);
      PanicFinding(checks[i], if k < |messages| then messages[k] else "panicked")
  }

  /** The checks that count as `s`: those that finish with such a finding and, among errors, those that panic. */
  function Reporting(checks: seq<Check>, s: Severity): set<nat> {
    set i: nat | i < |checks| && (match checks[i].outcome case Done(f) => f.severity == s case Panicked(_) => s == Error)
  }

  function WithSeverity(findings: seq<Finding>, s: Severity): set<nat> {
    set i: nat | i < |findings| && findings[i].severity == s
  }

  lemma {:induction false} LastCounted(findings: seq<Finding>, s: Severity)
    requires findings != []
    ensures var n := |findings| - 1;
            WithSeverity(findings, s) == WithSeverity(findings[..n], s) + if findings[n].severity == s then {n} else {}
  {
    var n := |findings| - 1;
    forall i: nat ensures i in WithSeverity(findings, s) <==> i in WithSeverity(findings[..n], s) || (i == n && findings[n].severity == s) {
      assert i < n ==> findings[..n][i] == findings[i];
    }
  }

  lemma {:induction false} CountIsSize(findings: seq<Finding>, s: Severity)
    ensures Count(findings, s) == |WithSeverity(findings, s)|
  {
    if findings == [] {
      assert WithSeverity(findings, s) == {};
    } else {
      var before, last := findings[..|findings| - 1], |findings| - 1;
      CountIsSize(before, s);
      LastCounted(findings, s);
      assert last !in WithSeverity(before, s);
    }
  }

  /** The counters say how many checks there are of each kind. */
  ghost predicate CountsChecks(checks: seq<Check>, r: Report) {
    && r.ok == |Reporting(checks, Passed)| && r.warnings == |Reporting(checks, Warning)|
    && r.errors == |Reporting(checks, Error)| && r.skipped == |Reporting(checks, Skipped)|
  }

  lemma {:induction false} TallyCountsChecks(checks: seq<Check>, messages: seq<string>, r: Report)
    requires Tallied(r) && |r.findings| == |checks|
    requires forall i :: 0 <= i < |checks| ==> r.findings[i] == FindingAt(checks, messages, i)
    ensures CountsChecks(checks, r)
  {
    hide Count;
    forall s ensures Count(r.findings, s) == |Reporting(checks, s)| {
      CountIsSize(r.findings, s);
      assert WithSeverity(r.findings, s) == Reporting(checks, s);
    }
  }

  /** `DoctorRunner::run_all`, for one completion order. */
  method RunAll(checks: seq<Check>, order: seq<nat>) returns (r: Report)
    requires CompletionOrder(order, |checks|)
    ensures Tallied(r)
    ensures CountsChecks(checks, r)
    ensures |r.findings| == |checks|
    ensures forall i :: 0 <= i < |checks| ==> r.findings[i] == FindingAt(checks, Messages(checks, order), i)
  {
    hide CountsChecks, Tallied;
    var n := |checks|;
    forall i: nat ensures (i in order <==> i < n) && |order| == n { OrderCovers(order, n, i); }
    if n == 0 {
      r := FromFindings([]);
      TallyCountsChecks(checks, [], r);
      return;
    }
    var slots: seq<Option<Finding>>, panics: seq<string> := seq(n, _ => None), [];
    for k := 0 to |order|
      invariant |slots| == n
      invariant panics == Messages(checks, order[..k])
      invariant forall i :: 0 <= i < n ==>
                  slots[i] == if i in order[..k] && checks[i].outcome.Done? then Some(checks[i].outcome.finding) else None
    {
      var idx := order[k];
      assert idx in order;
      assert order[..k + 1] == order[..k] + [idx];
      match checks[idx].outcome {
        case Done(finding) => slots := slots[idx := Some(finding)];
        case Panicked(message) => panics := panics + [message];
      }
    }
    assert order[..|order|] == order;
    var findings := FillPanicked(checks, slots, panics);
    r := FromFindings(findings);
    TallyCountsChecks(checks, panics, r);
  }

  /** The second loop of `run_all`: the slots still empty take the collected messages in turn. */
  method FillPanicked(checks: seq<Check>, slots: seq<Option<Finding>>, panics: seq<string>) returns (findings: seq<Finding>)
    requires |slots| == |checks|
    requires forall i :: 0 <= i < |checks| ==>
               slots[i] == if checks[i].outcome.Done? then Some(checks[i].outcome.finding) else None
    ensures |findings| == |checks|
    ensures forall i :: 0 <= i < |checks| ==> findings[i] == FindingAt(checks, panics, i)
  {
    findings := [];
    var next := 0;
    for i := 0 to |checks|
      invariant |findings| == i && next == PanicRank(checks, i)
      invariant forall j :: 0 <= j < i ==> findings[j] == FindingAt(checks, panics, j)
    {
      match slots[i] {
        case Some(finding) => findings := findings + [finding];
        case None =>
          var text := "panicked";
          if next < |panics| { text := panics[next]; }
          next := next + 1;
          findings := findings + [PanicFinding(checks[i], text)];
      }
    }
  }

  // -------------------------------------------------------- no message is lost

  lemma {:induction false} NothingJoined(checks: seq<Check>)
    ensures Messages(checks, Indices(0)) == []
  {
  }

  lemma {:induction false} IndicesStep(checks: seq<Check>, n: nat)
    ensures Messages(checks, Indices(n + 1)) == Messages(checks, Indices(n)) + OwnMessage(checks, n)
  {
    assert Indices(n + 1)[..n] == Indices(n);
  }

  lemma {:induction false} OwnCounted(checks: seq<Check>, n: nat)
    requires n <= |checks|
    ensures |Messages(checks, Indices(n))| == PanicRank(checks, n)
  {
    if n > 0 {
      IndicesStep(checks, n - 1);
      OwnCounted(checks, n - 1);
    }
  }

  lemma {:induction false} OwnInOrder(checks: seq<Check>, n: nat, i: nat)
    requires i < n <= |checks| && checks[i].outcome.Panicked?
    ensures PanicRank(checks, i) < PanicRank(checks, n) == |Messages(checks, Indices(n))|
    ensures Messages(checks, Indices(n))[PanicRank(checks, i)] == checks[i].outcome.message
  {
    hide Messages, Indices;
    OwnCounted(checks, n);
    OwnCounted(checks, n - 1);
    IndicesStep(checks, n - 1);
    if i < n - 1 { OwnInOrder(checks, n - 1, i); }
  }

  /** The messages the report shows, check by check in registration order. */
  function Shown(checks: seq<Check>, messages: seq<string>, n: nat): seq<string>
    requires n <= |checks| && PanicRank(checks, n) <= |messages|
  {
    if n == 0 then []
    else Shown(checks, messages, n - 1)
         + if checks[n - 1].outcome.Panicked? then [messages[PanicRank(checks, n - 1)]] else []
  }

  lemma {:induction false} ShowsAll(checks: seq<Check>, messages: seq<string>, n: nat)
    requires n <= |checks| && PanicRank(checks, n) <= |messages|
    ensures Shown(checks, messages, n) == messages[..PanicRank(checks, n)]
  {
    if n > 0 {
      ShowsAll(checks, messages, n - 1);
      var k := PanicRank(checks, n - 1);
      assert checks[n - 1].outcome.Panicked? ==> messages[..k + 1] == messages[..k] + [messages[k]];
    }
  }

  /**
   * For every completion order: the report shows each panic message exactly as often as checks panicked with it,
   * so none is dropped, repeated or replaced by the fallback text.
   */
  lemma {:induction false} MessagesConserved(checks: seq<Check>, order: seq<nat>)
    requires CompletionOrder(order, |checks|)
    ensures |Messages(checks, order)| == PanicRank(checks, |checks|)
    ensures multiset(Shown(checks, Messages(checks, order), |checks|)) == multiset(Messages(checks, Indices(|checks|)))
  {
    var n := |checks|;
    forall i: nat ensures i in order <==> i < n { OrderCovers(order, n, i); }
    OwnCounted(checks, n);
    var given, own := Messages(checks, order), Messages(checks, Indices(n));
    FlatMapPermute(order, Indices(n), Own(checks));
    assert |given| == |multiset(given)| && |own| == |multiset(own)|;
    ShowsAll(checks, given, n);
    assert given[..|given|] == given;
  }

  /** An Error finding under the id and title of check i, with the message of some check that panicked. */
  ghost predicate NamedPanic(checks: seq<Check>, i: nat, f: Finding)
    requires i < |checks|
  {
    && f.severity == Error && f.checkId == checks[i].id && f.title == checks[i].title && f.detail == None && f.remediation == None
    && exists j :: 0 <= j < |checks| && checks[j].outcome.Panicked?
                   && f.message == "DR002: check '" + checks[i].id + "' panicked: " + checks[j].outcome.message
  }

  /** Whatever the order: registration order is kept, finished checks are untouched, panicked ones keep their name. */
  lemma {:induction false} FindingsByOrder(checks: seq<Check>, order: seq<nat>, i: nat)
    requires CompletionOrder(order, |checks|) && i < |checks|
    ensures match checks[i].outcome
            case Done(f) => FindingAt(checks, Messages(checks, order), i) == f
            case Panicked(_) => NamedPanic(checks, i, FindingAt(checks, Messages(checks, order), i))
  {
    MessagesConserved(checks, order);
    if checks[i].outcome.Panicked? {
      OwnInOrder(checks, |checks|, i);
      var k := PanicRank(checks, i);
      FromSomeCheck(checks, order, k);
    }
  }

  lemma {:induction false} FromSomeCheck(checks: seq<Check>, order: seq<nat>, k: nat)
    requires k < |Messages(checks, order)|
    ensures exists j :: 0 <= j < |checks| && checks[j].outcome.Panicked? && checks[j].outcome.message == Messages(checks, order)[k]
  {
    var m := Messages(checks, order)[k];
    FlatMapHas(order, Own(checks), m);
    var j :| j in order && m in Own(checks)(j);
  }

  /** Every panicked check is reported with its own message. */
  ghost predicate OwnMessages(checks: seq<Check>, messages: seq<string>) {
    forall i :: 0 <= i < |checks| && checks[i].outcome.Panicked? ==>
      FindingAt(checks, messages, i) == PanicFinding(checks[i], checks[i].outcome.message)
  }

  lemma {:induction false} PanicFindingInjective(c: Check, m: string, n: string)
    requires PanicFinding(c, m) == PanicFinding(c, n)
    ensures m == n
  {
    var head := "DR002: check '" + c.id + "' panicked: ";
    assert (head + m)[|head|..] == m && (head + n)[|head|..] == n;
  }

  lemma {:induction false} OwnShown(checks: seq<Check>, messages: seq<string>, i: nat)
    requires i < |checks| && checks[i].outcome.Panicked? && OwnMessages(checks, messages)
    requires PanicRank(checks, i) < |messages|
    ensures messages[PanicRank(checks, i)] == checks[i].outcome.message
  {
    PanicFindingInjective(checks[i], messages[PanicRank(checks, i)], checks[i].outcome.message);
  }

  lemma {:induction false} ShownOwn(checks: seq<Check>, messages: seq<string>, n: nat)
    requires n <= |checks| && PanicRank(checks, |checks|) == |messages| && OwnMessages(checks, messages)
    requires PanicRank(checks, n) <= |messages|
    ensures Shown(checks, messages, n) == Messages(checks, Indices(n))
  {
    hide Messages, Indices, OwnMessages, FindingAt;
    if n == 0 {
      NothingJoined(checks);
    } else {
      IndicesStep(checks, n - 1);
      ShownOwn(checks, messages, n - 1);
      if checks[n - 1].outcome.Panicked? { OwnShown(checks, messages, n - 1); }
    }
  }

  /** Messages reach their own checks exactly when the panics arrive as if in registration order. */
  lemma {:induction false} OwnMessagesIff(checks: seq<Check>, order: seq<nat>)
    requires CompletionOrder(order, |checks|)
    ensures OwnMessages(checks, Messages(checks, order)) <==> Messages(checks, order) == Messages(checks, Indices(|checks|))
  {
    hide Messages, Indices;
    MessagesConserved(checks, order);
    var given := Messages(checks, order);
    if OwnMessages(checks, given) {
      ShownOwn(checks, given, |checks|);
      ShowsAll(checks, given, |checks|);
      assert given[..|given|] == given;
    } else {
      var i :| 0 <= i < |checks| && checks[i].outcome.Panicked?
               && FindingAt(checks, given, i) != PanicFinding(checks[i], checks[i].outcome.message);
      OwnInOrder(checks, |checks|, i);
    }
  }

  /** Whatever the schedule, every panicked check is reported with its own message. */
  ghost predicate AlwaysOwnMessages(checks: seq<Check>) {
    forall order :: CompletionOrder(order, |checks|) ==> OwnMessages(checks, Messages(checks, order))
  }

  /** All checks that panic do so with the same message. */
  predicate OnePanicMessage(checks: seq<Check>) {
    forall i, j :: 0 <= i < |checks| && 0 <= j < |checks| && checks[i].outcome.Panicked? && checks[j].outcome.Panicked?
                   ==> checks[i].outcome.message == checks[j].outcome.message
  }

  /** The schedule in which checks i and j trade places. */
  function Traded(n: nat, i: nat, j: nat): seq<nat>
    requires i < j < n
  {
    Indices(n)[i := j][j := i]
  }

  lemma {:induction false} TradedCompletes(n: nat, i: nat, j: nat)
    requires i < j < n
    ensures CompletionOrder(Traded(n, i, j), n)
  {
    var a := Indices(n);
    var head, middle, tail := a[..i], a[i + 1..j], a[j + 1..];
    assert a == head + [i] + middle + [j] + tail;
    assert Traded(n, i, j) == head + [j] + middle + [i] + tail;
  }

  /** In that schedule the message of j arrives in the place of that of i. */
  lemma {:induction false} TradedMessage(checks: seq<Check>, i: nat, j: nat)
    requires i < j < |checks| && checks[i].outcome.Panicked? && checks[j].outcome.Panicked?
    ensures var given := Messages(checks, Traded(|checks|, i, j));
            PanicRank(checks, i) < |given| && given[PanicRank(checks, i)] == checks[j].outcome.message
  {
    var order, f := Traded(|checks|, i, j), Own(checks);
    var head, tail := order[..i], order[i + 1..];
    assert order == (head + [j]) + tail;
    assert head == Indices(i);
    OwnCounted(checks, i);
    FlatMapConcat(head, [j], f);
    FlatMapOne(j, f);
    FlatMapConcat(head + [j], tail, f);
  }

  /** Messages reach their own checks under every schedule exactly when the panicking checks all say the same. */
  lemma {:induction false} AlwaysOwnMessagesIff(checks: seq<Check>)
    ensures AlwaysOwnMessages(checks) <==> OnePanicMessage(checks)
  {
    if OnePanicMessage(checks) {
      forall order | CompletionOrder(order, |checks|) ensures OwnMessages(checks, Messages(checks, order)) {
        SameMessagesOwn(checks, order);
      }
    } else {
      var i, j :| 0 <= i < |checks| && 0 <= j < |checks| && checks[i].outcome.Panicked? && checks[j].outcome.Panicked?
                  && checks[i].outcome.message != checks[j].outcome.message;
      if i < j { TradedShows(checks, i, j); } else { TradedShows(checks, j, i); }
    }
  }

  lemma {:induction false} SameMessagesOwn(checks: seq<Check>, order: seq<nat>)
    requires OnePanicMessage(checks) && CompletionOrder(order, |checks|)
    ensures OwnMessages(checks, Messages(checks, order))
  {
    hide Messages, CompletionOrder;
    MessagesConserved(checks, order);
    forall i | 0 <= i < |checks| && checks[i].outcome.Panicked?
      ensures FindingAt(checks, Messages(checks, order), i) == PanicFinding(checks[i], checks[i].outcome.message)
    {
      OwnInOrder(checks, |checks|, i);
      FromSomeCheck(checks, order, PanicRank(checks, i));
    }
  }

  lemma {:induction false} TradedShows(checks: seq<Check>, i: nat, j: nat)
    requires i < j < |checks| && checks[i].outcome.Panicked? && checks[j].outcome.Panicked?
    requires checks[i].outcome.message != checks[j].outcome.message
    ensures !AlwaysOwnMessages(checks)
  {
    hide Messages, CompletionOrder, Traded;
    var order := Traded(|checks|, i, j);
    TradedCompletes(|checks|, i, j);
    TradedMessage(checks, i, j);
    if OwnMessages(checks, Messages(checks, order)) { OwnShown(checks, Messages(checks, order), i); }
  }

  /** Two checks that panic in the other order swap their messages. */
  lemma {:induction false} MessagesMaySwap()
    ensures var checks := [Check("a", "A", Panicked("x")), Check("b", "B", Panicked("y"))];
            CompletionOrder([1, 0], 2) && !OwnMessages(checks, Messages(checks, [1, 0]))
  {
    var checks := [Check("a", "A", Panicked("x")), Check("b", "B", Panicked("y"))];
    assert Indices(2) == [0, 1];
    assert [1, 0][..1] == [1] && [1][..0] == [] && [0, 1][..1] == [0] && [0][..0] == [];
    assert Messages(checks, [1]) == ["y"] && Messages(checks, [0]) == ["x"];
    assert Messages(checks, [1, 0]) == ["y", "x"];
    assert Messages(checks, [0, 1]) == ["x", "y"];
    OwnMessagesIff(checks, [1, 0]);
    assert ["y", "x"][0] != ["x", "y"][0];
  }
}
