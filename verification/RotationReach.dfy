/** How far the revocation of a family reaches when rotations of it are in flight. */
module RotationReach {
  import opened Options
  import opened Rotation
  import opened RotationInvariants

  /** No token of the family can be refreshed. */
  ghost predicate Dead(s: Store, f: nat) {
    forall i :: i in s.tokens && s.tokens[i].family == f ==> s.tokens[i].revoked
  }

  function Chain(s: Store, f: nat): seq<nat> { if f in s.chains then s.chains[f] else [] }

  lemma ChainHolds(s: Store, f: nat)
    requires Inv(s)
    ensures forall i :: i in Chain(s, f) <==> i in s.tokens && s.tokens[i].family == f
    ensures Chain(s, f) != [] ==> IsChain(s.tokens, f, Chain(s, f))
  {
  }

  // ---- Runs extend chains

  lemma {:induction false} RunExtends(s: Store, steps: seq<Step>, f: nat)
    requires Legal(s, steps)
    ensures Chain(s, f) <= Chain(Run(s, steps), f) && s.rotations <= Run(s, steps).rotations
    decreases steps
  {
    if steps != [] {
      RunExtends(Apply(s, steps[0]), steps[1..], f);
    }
  }

  /** No rotation of the family committed between the two states. */
  ghost predicate NoRotationSince(s: Store, z: Store, f: nat) {
    forall k :: |s.rotations| <= k < |z.rotations| ==>
      z.rotations[k].consumed in z.tokens && z.tokens[z.rotations[k].consumed].family != f
  }

  /** The step from s to s' commits a rotation of the family. */
  predicate Rotates(s: Store, s': Store, f: nat) {
    |s'.rotations| == |s.rotations| + 1 && s'.rotations[|s.rotations|].consumed in s.tokens
    && s.tokens[s'.rotations[|s.rotations|].consumed].family == f
  }

  /** It does so exactly if it extends the family's chain, and it commits one rotation at most, of a token there is. */
  ghost predicate ExtendsByRotating(s: Store, s': Store, f: nat) {
    f in s'.chains && (Chain(s', f) != Chain(s, f) <==> Rotates(s, s', f))
    && (s'.rotations == s.rotations
        || (|s'.rotations| == |s.rotations| + 1 && s'.rotations[|s.rotations|].consumed in s.tokens))
  }

  lemma SameChain(s: Store, s': Store, f: nat)
    requires f in s.chains && f in s'.chains && s'.chains[f] == s.chains[f] && s'.rotations == s.rotations
    ensures ExtendsByRotating(s, s', f)
  {
  }

  lemma StepExtendsIff(s: Store, step: Step, f: nat)
    requires Inv(s) && Enabled(s, step) && f in s.chains
    ensures ExtendsByRotating(s, Apply(s, step), f)
  {
    if step.CommitRotation? {
      RotationExtends(s, step.txn, f);
    } else {
      KnownFamilies(s);
      PlainStepKeepsChain(s, step, f);
    }
  }

  lemma PlainStepKeepsChain(s: Store, step: Step, f: nat)
    requires FamiliesKnown(s) && Enabled(s, step) && f in s.chains && !step.CommitRotation?
    ensures ExtendsByRotating(s, Apply(s, step), f)
  {
    SameChain(s, Apply(s, step), f);
  }

  lemma RotationExtends(s: Store, t: nat, f: nat)
    requires ChainsHold(s) && RowsAreStable(s) && Enabled(s, CommitRotation(t)) && f in s.chains
    ensures var s', i := Apply(s, CommitRotation(t)), s.txns[t].target;
            s'.rotations == s.rotations + [Rotated(t, i, s.txns[t].replacement)]
            && i in s.tokens && f in s'.chains
            && (Chain(s', f) != Chain(s, f) <==> s.tokens[i].family == f)
            && ExtendsByRotating(s, s', f)
  {
    CommittedRotation(s, t);
    RotationIsFresh(s, t);
  }

  /** What one more step adds to the rotations since s. */
  lemma SinceStep(s: Store, s': Store, z: Store, f: nat)
    requires s.rotations <= s'.rotations <= z.rotations && |s'.rotations| <= |s.rotations| + 1
    ensures NoRotationSince(s, z, f) <==>
              NoRotationSince(s', z, f)
              && (|s'.rotations| > |s.rotations| ==>
                    s'.rotations[|s.rotations|].consumed in z.tokens
                        && z.tokens[s'.rotations[|s.rotations|].consumed].family != f)
  {
    if |s'.rotations| > |s.rotations| {
      assert z.rotations[|s.rotations|] == s'.rotations[|s.rotations|];
    }
  }

  lemma {:induction false} ChainStaysIff(s: Store, steps: seq<Step>, f: nat)
    requires Inv(s) && Legal(s, steps) && f in s.chains
    ensures Chain(Run(s, steps), f) == Chain(s, f) <==> NoRotationSince(s, Run(s, steps), f)
    decreases steps
  {
    if steps != [] {
      var s', z := Apply(s, steps[0]), Run(s, steps);
      StepKeeps(s, steps[0]);
      StepExtendsIff(s, steps[0], f);
      ChainStaysIff(s', steps[1..], f);
      RunExtends(s', steps[1..], f);
      StepGrowsChain(s, steps[0], f);
      RunGrows(s, steps);
      StepRotations(s, steps[0]);
      SinceStep(s, s', z, f);
    }
  }

  lemma StepRotations(s: Store, step: Step)
    requires Enabled(s, step)
    ensures s.rotations <= Apply(s, step).rotations
  {
  }

  lemma StepGrowsChain(s: Store, step: Step, f: nat)
    requires Enabled(s, step)
    ensures Chain(Apply(s, step), f) == Chain(s, f) || |Chain(Apply(s, step), f)| > |Chain(s, f)|
  {
  }

  // ---- A revocation keeps the snapshot it started with

  predicate IsRevoking(s: Store, t: nat, scope: Scope, snapshot: set<nat>) {
    t in s.txns && s.txns[t].Revoking? && s.txns[t].scope == scope && s.txns[t].snapshot == snapshot
  }

  lemma {:induction false} GoneForGood(s: Store, steps: seq<Step>, t: nat)
    requires Legal(s, steps) && t !in s.txns && t < s.nextTxn
    ensures t !in Run(s, steps).txns
    decreases steps
  {
    if steps != [] {
      GoneForGood(Apply(s, steps[0]), steps[1..], t);
    }
  }

  lemma StepKeepsSnapshot(s: Store, step: Step, t: nat, scope: Scope, snapshot: set<nat>)
    requires Enabled(s, step) && t < s.nextTxn && IsRevoking(s, t, scope, snapshot)
    ensures t in Apply(s, step).txns ==> IsRevoking(Apply(s, step), t, scope, snapshot)
    ensures t < Apply(s, step).nextTxn
  {
  }

  lemma {:induction false} SnapshotStays(s: Store, steps: seq<Step>, t: nat, scope: Scope, snapshot: set<nat>)
    requires Legal(s, steps) && t < s.nextTxn && IsRevoking(s, t, scope, snapshot)
    ensures t in Run(s, steps).txns ==> IsRevoking(Run(s, steps), t, scope, snapshot)
    decreases steps
  {
    if steps != [] {
      StepKeepsSnapshot(s, steps[0], t, scope, snapshot);
      if t in Apply(s, steps[0]).txns {
        SnapshotStays(Apply(s, steps[0]), steps[1..], t, scope, snapshot);
      } else {
        GoneForGood(Apply(s, steps[0]), steps[1..], t);
      }
    }
  }

  /** A reuse report, a logout or a revocation by family starts from the rows of that moment. */
  lemma StartsFromItsSnapshot(s: Store, step: Step)
    requires Inv(s) && Enabled(s, step) && (step.DetectReuse? || step.StartRevoke?)
    ensures var t := if step.DetectReuse? then step.txn else s.nextTxn;
            var scope := if step.DetectReuse? then Family(s.txns[t].row.family) else step.scope;
            IsRevoking(Apply(s, step), t, scope, Apply(s, step).tokens.Keys)
  {
  }

  // ---- What the commit leaves

  /** With the chain unchanged everything in it is in reach. */
  lemma ReachesWholeChain(s: Store, z: Store, t: nat, f: nat)
    requires Inv(s) && Inv(z) && IsRevoking(z, t, Family(f), s.tokens.Keys) && Chain(z, f) == Chain(s, f)
    requires Enabled(z, CommitRevoke(t))
    ensures Dead(Apply(z, CommitRevoke(t)), f)
  {
    ChainHolds(s, f);
    ChainHolds(z, f);
    RevocationReach(z, t);
    var z' := Apply(z, CommitRevoke(t));
    forall i | i in z'.tokens && z'.tokens[i].family == f ensures z'.tokens[i].revoked {
      assert i in Chain(z, f);
    }
  }

  /** A chain that grew ends in a token issued since, which only another revocation can have revoked. */
  lemma MissesTheNewest(s: Store, z: Store, t: nat, f: nat)
    requires Grows(s.tokens, z.tokens) && IsChain(z.tokens, f, Chain(z, f))
    requires forall i :: i in s.tokens && s.tokens[i].family == f ==> i in Chain(s, f)
    requires Chain(s, f) <= Chain(z, f) && Chain(z, f) != Chain(s, f)
    requires Enabled(z, CommitRevoke(t)) && z.txns[t].targets <= s.tokens.Keys
    ensures Dead(Apply(z, CommitRevoke(t)), f) <==> Dead(z, f)
  {
    NewestIsNew(s.tokens, z.tokens, f, Chain(s, f), Chain(z, f));
    RevokingTheOthers(z.tokens, z.txns[t].targets, f, Chain(z, f));
  }

  lemma NewestIsNew(before: map<nat, Token>, after: map<nat, Token>, f: nat, short: seq<nat>, c: seq<nat>)
    requires Grows(before, after) && IsChain(after, f, c) && short <= c && short != c
    requires forall i :: i in before && before[i].family == f ==> i in short
    ensures c[|c| - 1] !in before
  {
    NotInShorter(c, |short|);
    assert c[|c| - 1] in c;
  }

  lemma CommitIsBounded(z: Store, t: nat)
    requires Inv(z) && Enabled(z, CommitRevoke(t))
    ensures z.txns[t].targets <= z.txns[t].snapshot
  {
    assert Reaches(z.tokens, z.txns[t]);
  }

  /** Revoking tokens other than the last of a chain neither kills nor revives the family. */
  lemma RevokingTheOthers(tokens: map<nat, Token>, targets: set<nat>, f: nat, c: seq<nat>)
    requires IsChain(tokens, f, c) && c[|c| - 1] !in targets
    ensures (forall i :: i in tokens && tokens[i].family == f ==> RevokeAll(tokens, targets)[i].revoked)
            <==> (forall i :: i in tokens && tokens[i].family == f ==> tokens[i].revoked)
  {
    var last := c[|c| - 1];
    assert last in c;
    forall i | i in tokens && tokens[i].family == f && !tokens[i].revoked ensures i == last {
      UnrevokedIsLast(tokens, f, c, i);
    }
    assert RevokeAll(tokens, targets)[last] == tokens[last];
  }

  lemma NotInShorter(c: seq<nat>, n: nat)
    requires n < |c| && forall k, l :: 0 <= k < l < |c| ==> c[k] < c[l]
    ensures c[|c| - 1] !in c[..n]
  {
  }

  lemma KillsIff(s: Store, steps: seq<Step>, t: nat, f: nat)
    requires Inv(s) && f in s.chains && IsRevoking(s, t, Family(f), s.tokens.Keys)
    requires Legal(s, steps) && Enabled(Run(s, steps), CommitRevoke(t))
    ensures var z := Run(s, steps);
            Dead(Apply(z, CommitRevoke(t)), f) <==> NoRotationSince(s, z, f) || Dead(z, f)
  {
    var z := Run(s, steps);
    RunKeeps(s, steps);
    RunGrows(s, steps);
    RunExtends(s, steps, f);
    SnapshotStays(s, steps, t, Family(f), s.tokens.Keys);
    ChainStaysIff(s, steps, f);
    if Chain(z, f) == Chain(s, f) {
      ReachesWholeChain(s, z, t, f);
    } else {
      ChainHolds(s, f);
      ChainHolds(z, f);
      CommitIsBounded(z, t);
      MissesTheNewest(s, z, t, f);
    }
  }

  /** Transaction t starts revoking family f: on a reuse report, or as a logout of one of its tokens. */
  predicate StartsRevoking(s: Store, step: Step, t: nat, f: nat) {
    Enabled(s, step)
    && if step.DetectReuse? then step.txn == t && s.txns[t].row.family == f
       else step == StartRevoke(Family(f)) && t == s.nextTxn && f in s.chains
  }

  /** In every run: a revocation of a family leaves it without a usable token if and only if no rotation of the family
      committed between the start of the revocation and its commit, or another revocation had already killed it. */
  lemma FamilyRevocationKillsIff(before: seq<Step>, start: Step, after: seq<Step>, t: nat, f: nat)
    requires Legal(EMPTY, before) && StartsRevoking(Run(EMPTY, before), start, t, f)
    requires Legal(Apply(Run(EMPTY, before), start), after)
    requires Enabled(Run(Apply(Run(EMPTY, before), start), after), CommitRevoke(t))
    ensures var s := Apply(Run(EMPTY, before), start);
            var z := Run(s, after);
            Dead(Apply(z, CommitRevoke(t)), f) <==> NoRotationSince(s, z, f) || Dead(z, f)
  {
    EmptyIsSound();
    RunKeeps(EMPTY, before);
    var s0 := Run(EMPTY, before);
    StepKeeps(s0, start);
    StartsFromItsSnapshot(s0, start);
    StartedFamilyExists(s0, start, t, f);
    KillsIff(Apply(s0, start), after, t, f);
  }

  lemma StartedFamilyExists(s: Store, step: Step, t: nat, f: nat)
    requires Inv(s) && StartsRevoking(s, step, t, f)
    ensures f in Apply(s, step).chains
  {
  }

  // ---- Dead families

  ghost predicate AllRevoked(tokens: map<nat, Token>, f: nat) {
    forall i :: i in tokens && tokens[i].family == f ==> tokens[i].revoked
  }

  lemma RotatingAnotherFamily(tokens: map<nat, Token>, i: nat, r: nat, f: nat)
    requires AllRevoked(tokens, f) && i in tokens && tokens[i].family != f
    ensures AllRevoked(Rotate(tokens, i, r), f)
  {
  }

  lemma RevokingMore(tokens: map<nat, Token>, targets: set<nat>, f: nat)
    requires AllRevoked(tokens, f)
    ensures AllRevoked(RevokeAll(tokens, targets), f)
  {
  }

  lemma AddingAnotherFamily(tokens: map<nat, Token>, i: nat, t: Token, f: nat)
    requires AllRevoked(tokens, f) && t.family != f
    ensures AllRevoked(tokens[i := t], f)
  {
  }

  lemma RotationKeepsDead(s: Store, t: nat, f: nat)
    requires ChainsHold(s) && RowsAreStable(s) && Enabled(s, CommitRotation(t)) && AllRevoked(s.tokens, f)
    ensures AllRevoked(Apply(s, CommitRotation(t)).tokens, f)
  {
    CommittedRotation(s, t);
    RotationIsFresh(s, t);
    RotatingAnotherFamily(s.tokens, s.txns[t].target, s.txns[t].replacement, f);
  }

  lemma StepKeepsDead(s: Store, step: Step, f: nat)
    requires ChainsHold(s) && RowsAreStable(s) && Enabled(s, step) && f in s.chains && AllRevoked(s.tokens, f)
    ensures AllRevoked(Apply(s, step).tokens, f)
  {
    match step
    case IssueFamily(d) =>
      KnownFamilies(s);
      AddingAnotherFamily(s.tokens, s.nextToken, Token(s.nextFamily, d, false, None), f);
    case CommitRotation(t) => RotationKeepsDead(s, t, f);
    case CommitRevoke(t) => RevokingMore(s.tokens, s.txns[t].targets, f);
    case _ => SameTokens(s, step);
  }

  /** A family without an unrevoked token never gets one again, in any interleaving. */
  lemma {:induction false} DeadStaysDead(s: Store, steps: seq<Step>, f: nat)
    requires Inv(s) && Legal(s, steps) && f in s.chains && Dead(s, f)
    ensures Dead(Run(s, steps), f)
    decreases steps
  {
    if steps != [] {
      StepKeeps(s, steps[0]);
      StepKeepsDead(s, steps[0], f);
      StepGrowsChain(s, steps[0], f);
      DeadStaysDead(Apply(s, steps[0]), steps[1..], f);
    }
  }

  // ---- A token that escapes

  const FIRST := Token(0, 5, true, Some(1))
  const SECOND := Token(0, 5, false, None)

  ghost predicate RotatedOnce(s: Store) {
    s.tokens == map[0 := FIRST, 1 := SECOND] && s.nextToken == 2 && s.nextTxn == 1 && s.locks == map[]
        && s.txns == map[]
  }

  ghost predicate Midway(s: Store) {
    s.tokens == map[0 := FIRST, 1 := SECOND] && s.nextToken == 3 && s.nextTxn == 2
    && s.locks == map[1 := 1] && s.txns == map[1 := Rotating(1, SECOND, 2)]
  }

  /** Nothing is in flight, token 0 was presented again, and token 2 of its family can still be refreshed. */
  ghost predicate Escaped(s: Store) {
    s.txns == map[] && 0 in s.tokens && 2 in s.tokens && s.tokens[2].family == s.tokens[0].family
        && !s.tokens[2].revoked
  }

  const OPENING: seq<Step> := [IssueFamily(5), TryLock(0)] + [InsertReplacement(0), CommitRotation(0)]

  const RACE: seq<Step> := [TryLock(1), InsertReplacement(1)]

  const REUSE: seq<Step> := [TryLock(0), DetectReuse(2)] + [CommitRotation(1), LockTarget(2, 1), CommitRevoke(2)]

  lemma Opens()
    ensures Legal(EMPTY, OPENING) && RotatedOnce(Run(EMPTY, OPENING))
  {
    var s1 := Apply(EMPTY, IssueFamily(5));
    assert s1.tokens == map[0 := Token(0, 5, false, None)];
    var s2 := Apply(s1, TryLock(0));
    assert s2.txns == map[0 := Holding(0, false, SECOND)] && s2.locks == map[0 := 0];
    TwoSteps(EMPTY, IssueFamily(5), TryLock(0));
    var s3 := Apply(s2, InsertReplacement(0));
    assert s3.txns == map[0 := Rotating(0, SECOND, 1)];
    var s4 := Apply(s3, CommitRotation(0));
    assert s4.tokens == map[0 := FIRST, 1 := SECOND] && s4.locks == map[] && s4.txns == map[];
    TwoSteps(s2, InsertReplacement(0), CommitRotation(0));
    JoinRuns(EMPTY, [IssueFamily(5), TryLock(0)], [InsertReplacement(0), CommitRotation(0)]);
  }

  lemma Races(s: Store)
    requires RotatedOnce(s)
    ensures Legal(s, RACE) && Midway(Run(s, RACE))
  {
    var s1 := Apply(s, TryLock(1));
    assert s1.txns == map[1 := Holding(1, false, SECOND)] && s1.locks == map[1 := 1];
    var s2 := Apply(s1, InsertReplacement(1));
    assert s2.txns == map[1 := Rotating(1, SECOND, 2)];
    TwoSteps(s, TryLock(1), InsertReplacement(1));
  }

  lemma Detects(s: Store)
    requires Midway(s)
    ensures Enabled(s, TryLock(0)) && Enabled(Apply(s, TryLock(0)), DetectReuse(2))
    ensures var s2 := Apply(Apply(s, TryLock(0)), DetectReuse(2));
            s2 == s.(nextTxn := 3, locks := map[1 := 1, 0 := 2],
                     txns := map[1 := Rotating(1, SECOND, 2), 2 := Revoking(Family(0), {0, 1}, {1}, {0})])
  {
    var s1 := Apply(s, TryLock(0));
    assert s1.txns == map[1 := Rotating(1, SECOND, 2), 2 := Holding(0, false, FIRST)]
        && s1.locks == map[1 := 1, 0 := 2];
    assert s1.tokens.Keys == {0, 1} && Live(s1, Family(0)) == {1};
    var s2 := Apply(s1, DetectReuse(2));
    assert s2.txns == map[1 := Rotating(1, SECOND, 2), 2 := Revoking(Family(0), {0, 1}, {1}, {0})];
  }

  ghost predicate Reported(s: Store) {
    s.tokens == map[0 := FIRST, 1 := SECOND] && s.locks == map[1 := 1, 0 := 2]
    && s.txns == map[1 := Rotating(1, SECOND, 2), 2 := Revoking(Family(0), {0, 1}, {1}, {0})]
  }

  lemma Commits(s: Store)
    requires Reported(s)
    ensures Enabled(s, CommitRotation(1))
    ensures var z := Apply(s, CommitRotation(1));
            z.tokens == map[0 := FIRST, 1 := Token(0, 5, true, Some(2)), 2 := SECOND]
            && z.locks == map[0 := 2] && z.txns == map[2 := Revoking(Family(0), {0, 1}, {1}, {0})]
  {
  }

  lemma Revokes(s: Store)
    requires s.tokens == map[0 := FIRST, 1 := Token(0, 5, true, Some(2)), 2 := SECOND]
    requires s.locks == map[0 := 2] && s.txns == map[2 := Revoking(Family(0), {0, 1}, {1}, {0})]
    ensures Enabled(s, LockTarget(2, 1)) && Enabled(Apply(s, LockTarget(2, 1)), CommitRevoke(2))
    ensures Escaped(Apply(Apply(s, LockTarget(2, 1)), CommitRevoke(2)))
  {
    var s1 := Apply(s, LockTarget(2, 1));
    assert s1.txns == map[2 := Revoking(Family(0), {0, 1}, {1}, {0} + {1})];
    assert Apply(s1, CommitRevoke(2)).txns == map[];
  }

  lemma Escapes(s: Store)
    requires Midway(s)
    ensures Legal(s, REUSE) && Escaped(Run(s, REUSE))
  {
    Detects(s);
    var s2 := Apply(Apply(s, TryLock(0)), DetectReuse(2));
    TwoSteps(s, TryLock(0), DetectReuse(2));
    Commits(s2);
    var s3 := Apply(s2, CommitRotation(1));
    Revokes(s3);
    ThreeSteps(s2, CommitRotation(1), LockTarget(2, 1), CommitRevoke(2));
    JoinRuns(s, [TryLock(0), DetectReuse(2)], [CommitRotation(1), LockTarget(2, 1), CommitRevoke(2)]);
  }

  /** Token 0 is rotated into 1; the rotation of 1 into 2 is in flight when 0 is presented again.  The reuse is
      reported, the revocation of the family commits, and token 2 stays live. */
  lemma ReuseReportCanMissAToken()
    ensures Legal(EMPTY, OPENING + (RACE + REUSE)) && Escaped(Run(EMPTY, OPENING + (RACE + REUSE)))
  {
    Opens();
    var s1 := Run(EMPTY, OPENING);
    Races(s1);
    Escapes(Run(s1, RACE));
    JoinRuns(s1, RACE, REUSE);
    JoinRuns(EMPTY, OPENING, RACE + REUSE);
  }
}
