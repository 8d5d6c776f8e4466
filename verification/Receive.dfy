/**
 Selective receive on one process: the park record and its matcher, and the
 three operations that move a message or a timer against it, as functions of
 the process state. A message word stands for the value it denotes.
 */
module Receive {
  import opened Options

  type Word = nat

  /** A closure: its code and its captured words; the first capture is the outer continuation. */
  datatype Closure = Closure(code: nat, captures: seq<Word>)

  /**
   What a process waits with. The matcher is any pure function from a message
   to a clause number (0 for a miss) and a scratch buffer of bound words.
   */
  datatype Park = Park(
    matcher: Word -> (nat, seq<Word>),
    clauseBodies: seq<Closure>,
    boundCounts: seq<nat>,
    boundArity: nat,
    afterCont: Option<Closure>,
    afterTimer: Option<nat>)

  /** What generated code promises of a park record. */
  ghost predicate WellFormed(park: Park) {
    && (forall m :: park.matcher(m).0 <= |park.clauseBodies| && |park.matcher(m).1| == park.boundArity)
    && (forall i :: 0 <= i < |park.clauseBodies| ==> |park.clauseBodies[i].captures| >= 1)
    && (park.afterTimer.Some? ==> park.afterCont.Some?)
  }

  predicate Rejects(park: Park, msg: Word) {
    park.matcher(msg).0 == 0
  }

  ghost predicate RejectsAll(park: Park, msgs: seq<Word>) {
    forall i :: 0 <= i < |msgs| ==> Rejects(park, msgs[i])
  }

  /** How many of the scratch words belong to a clause. */
  function BoundCount(park: Park, clause: nat): nat {
    if clause < |park.boundCounts| then park.boundCounts[clause] else park.boundArity
  }

  function Min(a: nat, b: nat): nat { if a < b then a else b }

  /** The clause a message hits, with the words its own pattern binds. */
  function TryMatch(park: Park, msg: Word): Option<(nat, seq<Word>)> {
    var (k, out) := park.matcher(msg);
    if k == 0 then None
    else Some((k - 1, out[..Min(BoundCount(park, k - 1), |out|)]))
  }

  /** Bound words go between the outer continuation and the receive site's captures. */
  function Outcome(template: Closure, bound: seq<Word>): Closure
    requires |template.captures| >= 1
  {
    template.(captures := [template.captures[0]] + bound + template.captures[1..])
  }

  /** The slots of an outcome closure filled one by one, as the runtime fills them. */
  method MaterializeOutcome(template: Closure, bound: seq<Word>) returns (outcome: Closure)
    requires |template.captures| >= 1
    ensures outcome == Outcome(template, bound)
    ensures outcome.code == template.code && |outcome.captures| == |template.captures| + |bound|
    ensures outcome.captures[0] == template.captures[0]
    ensures forall i :: 0 <= i < |bound| ==> outcome.captures[1 + i] == bound[i]
    ensures forall i :: 1 <= i < |template.captures| ==> outcome.captures[|bound| + i] == template.captures[i]
  {
    var slots := new Word[|template.captures| + |bound|](_ => 0);
    ghost var want := Outcome(template, bound).captures;
    slots[0] := template.captures[0];
    for i := 0 to |bound|
      invariant forall k :: 0 <= k < i + 1 ==> slots[k] == want[k]
    {
      slots[i + 1] := bound[i];
    }
    var caps := |template.captures| - 1;
    for i := 0 to caps
      invariant forall k :: 0 <= k < 1 + |bound| + i ==> slots[k] == want[k]
    {
      slots[1 + |bound| + i] := template.captures[i + 1];
    }
    assert slots[..] == want;
    outcome := template.(captures := slots[..]);
  }

  // ----------------------------------------------------------- one process

  datatype Status = New | Ready | Running | Blocked | Exited

  /**
   A process as the scheduler sees it, with the history of the messages that
   reached its mailbox or matcher and of those a receive consumed.
   */
  datatype Process = Process(
    mailbox: seq<Word>, wait: Option<Park>, runnable: Option<Closure>, status: Status,
    arrived: seq<Word>, consumed: seq<Word>)

  ghost predicate Sound(p: Process) {
    p.wait.Some? ==> WellFormed(p.wait.value)
  }

  function ClosureOf(park: Park, msg: Word): Closure
    requires WellFormed(park) && !Rejects(park, msg)
  {
    var (clause, bound) := TryMatch(park, msg).value;
    Outcome(park.clauseBodies[clause], bound)
  }

  /** The process once a message has satisfied its wait. */
  function Satisfied(p: Process, msg: Word): Process
    requires p.wait.Some? && WellFormed(p.wait.value) && !Rejects(p.wait.value, msg)
  {
    p.(wait := None, runnable := Some(ClosureOf(p.wait.value, msg)), consumed := p.consumed + [msg])
  }

  /** Sender-side matching: a hit bypasses the mailbox, anything else is appended. */
  function Probe(p: Process, msg: Word): (Process, bool)
    requires Sound(p)
  {
    var q := p.(arrived := p.arrived + [msg]);
    if p.wait.Some? && !Rejects(p.wait.value, msg) then
      (Satisfied(q, msg).(status := Ready), true)
    else
      (q.(mailbox := p.mailbox + [msg]), false)
  }

  /** A plain arrival: the message joins the mailbox. */
  function Append(p: Process, msg: Word): Process {
    p.(mailbox := p.mailbox + [msg], arrived := p.arrived + [msg])
  }

  /** Index of the earliest accepted message, or the length of the mailbox. */
  function FirstHit(park: Park, msgs: seq<Word>): (i: nat)
    ensures i <= |msgs|
    ensures forall k :: 0 <= k < i ==> Rejects(park, msgs[k])
    ensures i < |msgs| ==> !Rejects(park, msgs[i])
  {
    if msgs == [] || !Rejects(park, msgs[0]) then 0
    else
      var i := FirstHit(park, msgs[1..]);
      assert forall k :: 1 <= k < i + 1 ==> msgs[k] == msgs[1..][k - 1];
      i + 1
  }

  datatype ScanOutcome = Hit | Miss | NotApplicable

  /** Mailbox scan: the earliest accepted message is spliced out, or the process blocks. */
  function Scan(p: Process): (Process, ScanOutcome)
    requires Sound(p)
  {
    if p.wait.None? || p.mailbox == [] then (p, NotApplicable)
    else
      var i := FirstHit(p.wait.value, p.mailbox);
      if i == |p.mailbox| then (p.(status := Blocked), Miss)
      else (Satisfied(p, p.mailbox[i]).(mailbox := p.mailbox[..i] + p.mailbox[i + 1..]), Hit)
  }

  /** An expired timer resumes the wait that holds it, and no other. */
  function Fire(p: Process, id: nat): (Process, bool) {
    if p.wait.None? || p.wait.value.afterTimer != Some(id) then (p, false)
    else (p.(wait := None, runnable := p.wait.value.afterCont, status := Ready), true)
  }

  // ------------------------------------------------------- what a hit resumes

  /**
   The closure a message resumes: the code of the clause its matcher names, the
   outer continuation first, then as many of the scratch words as the clause
   binds, then the receive site's own captures.
   */
  ghost predicate ResumedBy(park: Park, msg: Word, c: Closure)
    requires WellFormed(park) && !Rejects(park, msg)
  {
    var (number, scratch) := park.matcher(msg);
    var template := park.clauseBodies[number - 1];
    var bound := if number - 1 < |park.boundCounts| && park.boundCounts[number - 1] < park.boundArity
                 then park.boundCounts[number - 1] else park.boundArity;
    && c.code == template.code && |c.captures| == |template.captures| + bound
    && c.captures[0] == template.captures[0]
    && (forall i :: 0 <= i < bound ==> c.captures[1 + i] == scratch[i])
    && (forall i :: 1 <= i < |template.captures| ==> c.captures[bound + i] == template.captures[i])
  }

  lemma ClosureIsResumed(park: Park, msg: Word)
    requires WellFormed(park) && !Rejects(park, msg)
    ensures ResumedBy(park, msg, ClosureOf(park, msg))
  {}

  /** A hit at the sender resumes the closure of the message sent. */
  lemma ProbeResumes(p: Process, msg: Word)
    requires Sound(p) && Probe(p, msg).1
    ensures p.wait.Some? && !Rejects(p.wait.value, msg) && Probe(p, msg).0.runnable.Some?
    ensures ResumedBy(p.wait.value, msg, Probe(p, msg).0.runnable.value)
  {
    ClosureIsResumed(p.wait.value, msg);
  }

  /** A hit of a scan resumes the closure of the earliest message the matcher accepts. */
  lemma ScanResumes(p: Process) returns (i: nat)
    requires Sound(p) && Scan(p).1.Hit?
    ensures p.wait.Some? && i < |p.mailbox| && RejectsAll(p.wait.value, p.mailbox[..i])
    ensures !Rejects(p.wait.value, p.mailbox[i])
    ensures Scan(p).0.runnable.Some? && ResumedBy(p.wait.value, p.mailbox[i], Scan(p).0.runnable.value)
  {
    i := FirstHit(p.wait.value, p.mailbox);
    ClosureIsResumed(p.wait.value, p.mailbox[i]);
  }

  // ----------------------------------- sender-side matching refines a mailbox

  /** Everything an observer of the receive can tell apart; the status only steers the run queue. */
  ghost predicate SameReceive(p: Process, q: Process) {
    && p.mailbox == q.mailbox && p.wait == q.wait && p.runnable == q.runnable
    && p.arrived == q.arrived && p.consumed == q.consumed
  }

  lemma FirstHitIs(park: Park, msgs: seq<Word>, i: nat)
    requires i <= |msgs| && (forall k :: 0 <= k < i ==> Rejects(park, msgs[k]))
    requires i < |msgs| ==> !Rejects(park, msgs[i])
    ensures FirstHit(park, msgs) == i
  {}

  lemma FirstHitAppended(park: Park, msgs: seq<Word>, msg: Word)
    requires RejectsAll(park, msgs)
    ensures FirstHit(park, msgs + [msg]) == if Rejects(park, msg) then |msgs| + 1 else |msgs|
  {
    FirstHitIs(park, msgs + [msg], if Rejects(park, msg) then |msgs| + 1 else |msgs|);
  }

  /**
   On a waiting process whose mailbox is wholly rejected, probing at the sender
   leaves what appending and then scanning would: the same mailbox, wait and
   outcome closure, and a hit exactly when the scan hits.
   */
  lemma ProbeRefinesAppendThenScan(p: Process, msg: Word)
    requires Sound(p) && p.wait.Some? && RejectsAll(p.wait.value, p.mailbox)
    ensures SameReceive(Probe(p, msg).0, Scan(Append(p, msg)).0)
    ensures Probe(p, msg).1 <==> Scan(Append(p, msg)).1.Hit?
    ensures !Probe(p, msg).1 ==> RejectsAll(p.wait.value, Probe(p, msg).0.mailbox)
  {
    FirstHitAppended(p.wait.value, p.mailbox, msg);
    if !Rejects(p.wait.value, msg) {
      assert (p.mailbox + [msg])[..|p.mailbox|] + (p.mailbox + [msg])[|p.mailbox| + 1..] == p.mailbox;
    }
  }

  /**
   The precondition is needed: with an acceptable message already in the
   mailbox, probing takes the newcomer where the scan takes the earlier one.
   */
  lemma ProbeDiffersOtherwise(p: Process, msg: Word)
    requires Sound(p) && p.wait.Some? && !RejectsAll(p.wait.value, p.mailbox)
    ensures FirstHit(p.wait.value, p.mailbox) < |p.mailbox|
    ensures p.mailbox[FirstHit(p.wait.value, p.mailbox)] != msg ==>
      !SameReceive(Probe(p, msg).0, Scan(Append(p, msg)).0)
  {
    var i := FirstHit(p.wait.value, p.mailbox);
    var k :| 0 <= k < |p.mailbox| && !Rejects(p.wait.value, p.mailbox[k]);
    assert i <= k;
    FirstHitIs(p.wait.value, p.mailbox + [msg], i);
    var scanned, probed := Scan(Append(p, msg)).0, Probe(p, msg).0;
    assert scanned.consumed == p.consumed + [p.mailbox[i]];
    if !Rejects(p.wait.value, msg) {
      assert scanned.consumed[|p.consumed|] == p.mailbox[i] && probed.consumed[|p.consumed|] == msg;
    }
  }

  // ----------------------------------------------------- message conservation

  /** `part` is what is left of `whole` after deleting some of its elements. */
  ghost predicate Subsequence(part: seq<Word>, whole: seq<Word>) {
    exists at: seq<nat> :: Picks(part, whole, at)
  }

  ghost predicate Picks(part: seq<Word>, whole: seq<Word>, at: seq<nat>) {
    && |at| == |part|
    && (forall i, j :: 0 <= i < j < |at| ==> at[i] < at[j])
    && (forall i :: 0 <= i < |at| ==> at[i] < |whole| && part[i] == whole[at[i]])
  }

  /** Arrivals are exactly the mailbox plus what was consumed, and the mailbox keeps arrival order. */
  ghost predicate Conserves(p: Process) {
    && multiset(p.arrived) == multiset(p.mailbox) + multiset(p.consumed)
    && Subsequence(p.mailbox, p.arrived)
  }

  lemma PickedExtends(part: seq<Word>, whole: seq<Word>, x: Word)
    requires Subsequence(part, whole)
    ensures Subsequence(part, whole + [x]) && Subsequence(part + [x], whole + [x])
  {
    var at: seq<nat> :| Picks(part, whole, at);
    assert Picks(part, whole + [x], at);
    assert Picks(part + [x], whole + [x], at + [|whole|]);
  }

  lemma PickedShrinks(part: seq<Word>, whole: seq<Word>, i: nat)
    requires Subsequence(part, whole) && i < |part|
    ensures Subsequence(part[..i] + part[i + 1..], whole)
  {
    var at: seq<nat> :| Picks(part, whole, at);
    assert Picks(part[..i] + part[i + 1..], whole, at[..i] + at[i + 1..]);
  }

  lemma Spliced(s: seq<Word>, i: nat)
    requires i < |s|
    ensures multiset(s) == multiset(s[..i] + s[i + 1..]) + multiset{s[i]}
  {
    assert s == s[..i] + [s[i]] + s[i + 1..];
  }

  lemma ProbeConserves(p: Process, msg: Word)
    requires Sound(p) && Conserves(p)
    ensures Conserves(Probe(p, msg).0)
  {
    PickedExtends(p.mailbox, p.arrived, msg);
  }

  lemma AppendConserves(p: Process, msg: Word)
    requires Conserves(p)
    ensures Conserves(Append(p, msg))
  {
    PickedExtends(p.mailbox, p.arrived, msg);
  }

  /** A scan hit removes exactly the earliest accepted message; a miss removes nothing. */
  lemma ScanConserves(p: Process)
    requires Sound(p) && Conserves(p)
    ensures Conserves(Scan(p).0)
    ensures Scan(p).1.Hit? ==> exists i :: TookEarliest(p, Scan(p).0, i)
    ensures !Scan(p).1.Hit? ==>
      Scan(p).0.mailbox == p.mailbox && Scan(p).0.wait == p.wait && Scan(p).0.consumed == p.consumed
    ensures Scan(p).1.Miss? ==> RejectsAll(p.wait.value, p.mailbox)
  {
    if Scan(p).1.Hit? {
      var i := FirstHit(p.wait.value, p.mailbox);
      PickedShrinks(p.mailbox, p.arrived, i);
      Spliced(p.mailbox, i);
      assert TookEarliest(p, Scan(p).0, i);
    }
  }

  ghost predicate TookEarliest(p: Process, q: Process, i: nat) {
    && p.wait.Some? && i < |p.mailbox| && !Rejects(p.wait.value, p.mailbox[i])
    && RejectsAll(p.wait.value, p.mailbox[..i])
    && q.mailbox == p.mailbox[..i] + p.mailbox[i + 1..] && q.consumed == p.consumed + [p.mailbox[i]]
  }
}
