/** Who may report reuse: a refresh that got its token's row lock at once, never one that had to wait for it. */
module RotationRaces {
  import opened Options
  import opened Rotation

  /** The transaction a step belongs to, if it is a step of one already open. */
  function TxnOf(step: Step): Option<nat> {
    match step
    case Acquire(t) => Some(t)
    case InsertReplacement(t) => Some(t)
    case CommitRotation(t) => Some(t)
    case DetectReuse(t) => Some(t)
    case LockTarget(t, _) => Some(t)
    case CommitRevoke(t) => Some(t)
    case Rollback(t) => Some(t)
    case IssueFamily(_) => None
    case TryLock(_) => None
    case StartRevoke(_) => None
  }

  // ---- A refresh that waited

  /** t waited for its row, and reports nothing. */
  ghost predicate Waited(s: Store, t: nat) {
    t < s.nextTxn && (t in s.txns ==> !s.txns[t].Revoking? && (s.txns[t].Holding? ==> s.txns[t].contended))
  }

  lemma {:induction false} WaitedStays(s: Store, steps: seq<Step>, t: nat)
    requires Waited(s, t) && Legal(s, steps)
    ensures Waited(Run(s, steps), t)
    decreases steps
  {
    if steps != [] {
      WaitedStep(s, steps[0], t);
      WaitedStays(Apply(s, steps[0]), steps[1..], t);
    }
  }

  lemma WaitedStep(s: Store, step: Step, t: nat)
    requires Waited(s, t) && Enabled(s, step)
    ensures Waited(Apply(s, step), t)
  {
  }

  /** Transaction ids are handed out in order. */
  ghost predicate IdsFit(s: Store) { forall t :: t in s.txns ==> t < s.nextTxn }

  lemma {:induction false} RunKeepsIdsFit(s: Store, steps: seq<Step>)
    requires IdsFit(s) && Legal(s, steps)
    ensures IdsFit(Run(s, steps))
    decreases steps
  {
    if steps != [] {
      RunKeepsIdsFit(Apply(s, steps[0]), steps[1..]);
    }
  }

  lemma {:induction false} SplitRun(s: Store, a: seq<Step>, b: seq<Step>)
    requires Legal(s, a + b)
    ensures Legal(s, a) && Legal(Run(s, a), b) && Run(s, a + b) == Run(Run(s, a), b)
    decreases a
  {
    if a == [] {
      assert a + b == b;
    } else {
      assert (a + b)[0] == a[0] && (a + b)[1..] == a[1..] + b;
      SplitRun(Apply(s, a[0]), a[1..], b);
    }
  }

  lemma WaiterNeverReports(s: Store, t: nat, after: seq<Step>)
    requires IdsFit(s) && Enabled(s, Acquire(t)) && Legal(Apply(s, Acquire(t)), after)
    ensures !Enabled(Run(Apply(s, Acquire(t)), after), DetectReuse(t))
  {
    assert Waited(Apply(s, Acquire(t)), t);
    WaitedStays(Apply(s, Acquire(t)), after, t);
  }

  /** In no run does a refresh that got its row lock after waiting for it report reuse. */
  lemma NoReportAfterWaiting(steps: seq<Step>, i: nat, j: nat, t: nat)
    requires Legal(EMPTY, steps) && i < j < |steps| && steps[i] == Acquire(t)
    ensures steps[j] != DetectReuse(t)
  {
    var before, after := steps[..i], steps[i + 1..j];
    assert steps == before + ([Acquire(t)] + (after + steps[j..]));
    SplitRun(EMPTY, before, [Acquire(t)] + (after + steps[j..]));
    var s := Run(EMPTY, before);
    assert ([Acquire(t)] + (after + steps[j..]))[1..] == after + steps[j..];
    SplitRun(Apply(s, Acquire(t)), after, steps[j..]);
    RunKeepsIdsFit(EMPTY, before);
    WaiterNeverReports(s, t, after);
    assert steps[j..][0] == steps[j];
  }

  /** t waited and read a revoked row. */
  ghost predicate Lost(s: Store, t: nat) {
    t < s.nextTxn && (t in s.txns ==> s.txns[t].Holding? && s.txns[t].contended && s.txns[t].row.revoked)
  }

  lemma {:induction false} LostStays(s: Store, steps: seq<Step>, t: nat)
    requires Lost(s, t) && Legal(s, steps)
    ensures Lost(Run(s, steps), t)
    decreases steps
  {
    if steps != [] {
      LostStep(s, steps[0], t);
      LostStays(Apply(s, steps[0]), steps[1..], t);
    }
  }

  lemma LostStep(s: Store, step: Step, t: nat)
    requires Lost(s, t) && Enabled(s, step)
    ensures Lost(Apply(s, step), t)
  {
  }

  /** A refresh that waited and found its token revoked can only roll back, whatever happens first, and that leaves
      every token as it is. */
  lemma LoserCanOnlyRollBack(before: seq<Step>, t: nat, after: seq<Step>, step: Step)
    requires Legal(EMPTY, before) && Enabled(Run(EMPTY, before), Acquire(t))
    requires var s := Run(EMPTY, before); s.txns[t].target in s.tokens && s.tokens[s.txns[t].target].revoked
    requires Legal(Apply(Run(EMPTY, before), Acquire(t)), after)
    requires var z := Run(Apply(Run(EMPTY, before), Acquire(t)), after); Enabled(z, step) && TxnOf(step) == Some(t)
    ensures var z := Run(Apply(Run(EMPTY, before), Acquire(t)), after);
            step == Rollback(t) && Apply(z, step).tokens == z.tokens
  {
    RunKeepsIdsFit(EMPTY, before);
    var s1 := Apply(Run(EMPTY, before), Acquire(t));
    assert Lost(s1, t);
    LostStays(s1, after, t);
  }

  // ---- A refresh that did not wait

  /** A refresh that finds the row free and the token revoked can report reuse, and then it is out to revoke exactly the
      unrevoked tokens of the token's family. */
  lemma RevokedTokenIsReportedAtOnce(s: Store, i: nat)
    requires i in s.tokens && i !in s.locks && s.tokens[i].revoked
    ensures var t, s1 := s.nextTxn, Apply(s, TryLock(i));
            Enabled(s1, DetectReuse(t))
            && var txn := Apply(s1, DetectReuse(t)).txns[t];
               txn.Revoking?
               && forall j :: j in txn.targets <==>
                    j in s.tokens && s.tokens[j].family == s.tokens[i].family && !s.tokens[j].revoked
  {
  }

  /** A refresh that gets the row of an unrevoked token, waiting or not, can rotate it; it then consumes exactly that
      token and puts in one that continues its family and device. */
  lemma UnrevokedTokenIsRotated(s: Store, i: nat)
    requires i in s.tokens && i !in s.locks && !s.tokens[i].revoked && s.nextToken !in s.tokens
    ensures var t, r, s1 := s.nextTxn, s.nextToken, Apply(s, TryLock(i));
            Enabled(s1, InsertReplacement(t))
            && var s2 := Apply(s1, InsertReplacement(t));
               Enabled(s2, CommitRotation(t))
               && var z := Apply(s2, CommitRotation(t)).tokens;
                  z.Keys == s.tokens.Keys + {r} && i != r
                  && z[i].revoked && z[i].replacedBy == Some(r)
                  && !z[r].revoked && z[r].replacedBy == None
                  && z[r].family == z[i].family == s.tokens[i].family
                     && z[r].device == z[i].device == s.tokens[i].device
                  && forall j :: j in s.tokens && j != i ==> z[j] == s.tokens[j]
  {
  }

  /** What a revocation is out to revoke: exactly the unrevoked tokens of the family, or of the device. */
  lemma RevocationTargets(s: Store, scope: Scope)
    ensures var txn := Apply(s, StartRevoke(scope)).txns[s.nextTxn];
            txn.Revoking?
            && forall j :: j in txn.targets <==>
                 j in s.tokens && !s.tokens[j].revoked
                 && (scope.Family? ==> s.tokens[j].family == scope.family)
                 && (scope.Device? ==> s.tokens[j].device == scope.device)
  {
  }

  /** And what its commit does: the targets become revoked, and nothing else about any token changes. */
  lemma RevocationRevokes(s: Store, t: nat, i: nat)
    requires Enabled(s, CommitRevoke(t)) && i in s.tokens
    ensures var z := Apply(s, CommitRevoke(t)).tokens;
            z.Keys == s.tokens.Keys && z[i] == s.tokens[i].(revoked := s.tokens[i].revoked || i in s.txns[t].targets)
  {
  }

  // ---- The race of two refreshes

  /** Of two refreshes of one token, the second waits; the first rotates it and commits; the second, holding the row at
      last, can only roll back, and the winner's token stays live. */
  lemma WinnerKeepsItsToken()
    ensures var race := [IssueFamily(5), TryLock(0), TryLock(0)]
            + [InsertReplacement(0), CommitRotation(0), Acquire(1)];
            Legal(EMPTY, race)
            && var z := Run(EMPTY, race);
               1 in z.tokens && !z.tokens[1].revoked && 1 in z.txns
               && forall step :: Enabled(z, step) && TxnOf(step) == Some(1) ==> step == Rollback(1)
  {
    var first := Token(0, 5, false, None);
    var s1 := Apply(EMPTY, IssueFamily(5));
    var s2 := Apply(s1, TryLock(0));
    assert s2.tokens == map[0 := first] && s2.locks == map[0 := 0] && s2.txns == map[0 := Holding(0, false, first)];
    var s3 := Apply(s2, TryLock(0));
    assert s3.txns == map[0 := Holding(0, false, first), 1 := Waiting(0)];
    ThreeSteps(EMPTY, IssueFamily(5), TryLock(0), TryLock(0));
    RacesOn(s3);
    JoinRuns(EMPTY, [IssueFamily(5), TryLock(0), TryLock(0)], [InsertReplacement(0), CommitRotation(0), Acquire(1)]);
  }

  lemma RacesOn(s: Store)
    requires s.tokens == map[0 := Token(0, 5, false, None)] && s.locks == map[0 := 0] && s.nextToken == 1
    requires s.txns == map[0 := Holding(0, false, Token(0, 5, false, None)), 1 := Waiting(0)]
    ensures var rest := [InsertReplacement(0), CommitRotation(0), Acquire(1)];
            Legal(s, rest)
            && var z := Run(s, rest);
               1 in z.tokens && !z.tokens[1].revoked && 1 in z.txns
               && forall step :: Enabled(z, step) && TxnOf(step) == Some(1) ==> step == Rollback(1)
  {
    var s1 := Apply(s, InsertReplacement(0));
    assert s1.txns == map[0 := Rotating(0, Token(0, 5, false, None), 1), 1 := Waiting(0)];
    WinnerCommits(s1);
    LoserWakesUp(Apply(s1, CommitRotation(0)));
    ThreeSteps(s, InsertReplacement(0), CommitRotation(0), Acquire(1));
  }

  lemma WinnerCommits(s: Store)
    requires s.tokens == map[0 := Token(0, 5, false, None)] && s.locks == map[0 := 0]
    requires s.txns == map[0 := Rotating(0, Token(0, 5, false, None), 1), 1 := Waiting(0)]
    ensures var z := Apply(s, CommitRotation(0));
            z.txns == map[1 := Waiting(0)] && z.locks == map[]
            && z.tokens == map[0 := Token(0, 5, true, Some(1)), 1 := Token(0, 5, false, None)]
  {
  }

  lemma LoserWakesUp(s: Store)
    requires s.txns == map[1 := Waiting(0)] && s.locks == map[]
    requires s.tokens == map[0 := Token(0, 5, true, Some(1)), 1 := Token(0, 5, false, None)]
    ensures Enabled(s, Acquire(1))
    ensures var z := Apply(s, Acquire(1));
            1 in z.tokens && !z.tokens[1].revoked && 1 in z.txns
            && forall step :: Enabled(z, step) && TxnOf(step) == Some(1) ==> step == Rollback(1)
  {
    assert Apply(s, Acquire(1)).txns[1] == Holding(0, true, Token(0, 5, true, Some(1)));
  }
}
