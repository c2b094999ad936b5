/** What every step of the rotation protocol keeps, and what follows for every interleaving: each token is consumed at
most once, each family is one chain, and at most its last token is unrevoked. */
module RotationInvariants {
  import opened Options
  import opened Rotation

  // ---- Chains

  /** The family's tokens, each once, ids ascending, linked one to the next; all but the last are consumed. */
  ghost predicate IsChain(tokens: map<nat, Token>, f: nat, c: seq<nat>) {
    c != []
    && (forall i :: i in c <==> i in tokens && tokens[i].family == f)
    && (forall k, l :: 0 <= k < l < |c| ==> c[k] < c[l])
    && (forall k :: 0 <= k < |c| - 1 ==> tokens[c[k]].revoked && tokens[c[k]].replacedBy == Some(c[k + 1]))
    && tokens[c[|c| - 1]].replacedBy == None
  }

  ghost predicate ChainsHold(s: Store) {
    (forall f :: f in s.chains ==> f < s.nextFamily && IsChain(s.tokens, f, s.chains[f]))
    && (forall i :: i in s.tokens ==> i < s.nextToken && s.tokens[i].family in s.chains)
  }

  // ---- Locks

  ghost predicate Holds(txn: Txn, i: nat) {
    match txn
    case Waiting(_) => false
    case Holding(target, _, _) => target == i
    case Rotating(target, _, _) => target == i
    case Revoking(_, _, _, locked) => i in locked
  }

  /** A lock belongs to exactly one open transaction, the one that believes it holds it. */
  ghost predicate LocksAgree(s: Store) {
    (forall i :: i in s.locks ==> s.locks[i] in s.txns && Holds(s.txns[s.locks[i]], i))
    && (forall t, i :: t in s.txns && Holds(s.txns[t], i) ==> i in s.locks && s.locks[i] == t)
    && (forall t :: t in s.txns ==> t < s.nextTxn)
  }

  /** A row read under its lock still is what was read. */
  ghost predicate RowsAreStable(s: Store) {
    (forall t :: t in s.txns && (s.txns[t].Holding? || s.txns[t].Rotating?) ==>
       s.txns[t].target in s.tokens && s.tokens[s.txns[t].target] == s.txns[t].row)
    && (forall t :: t in s.txns && s.txns[t].Rotating? ==>
          !s.txns[t].row.revoked && s.txns[t].replacement < s.nextToken && s.txns[t].replacement !in s.tokens
          && s.txns[t].target < s.txns[t].replacement)
    && (forall t, u :: t in s.txns && u in s.txns && t != u && s.txns[t].Rotating? && s.txns[u].Rotating? ==>
          s.txns[t].replacement != s.txns[u].replacement)
  }

  /** A revocation still has every unrevoked token of its snapshot among its targets. */
  ghost predicate RevocationsReach(s: Store) {
    forall t :: t in s.txns ==> Reaches(s.tokens, s.txns[t])
  }

  ghost predicate RotationsRecorded(s: Store) {
    (forall k :: 0 <= k < |s.rotations| ==>
       s.rotations[k].consumed in s.tokens
           && s.tokens[s.rotations[k].consumed].replacedBy == Some(s.rotations[k].replacement))
    && (forall k, l :: 0 <= k < l < |s.rotations| ==> s.rotations[k].consumed != s.rotations[l].consumed)
  }

  ghost predicate Inv(s: Store) {
    ChainsHold(s) && LocksAgree(s) && RowsAreStable(s) && RevocationsReach(s) && RotationsRecorded(s)
  }

  lemma EmptyIsSound()
    ensures Inv(EMPTY)
  {
  }

  /** Only the last token of a family can be unrevoked. */
  lemma UnrevokedIsLast(tokens: map<nat, Token>, f: nat, c: seq<nat>, i: nat)
    requires IsChain(tokens, f, c) && i in tokens && tokens[i].family == f && !tokens[i].revoked
    ensures i == c[|c| - 1] && tokens[i].replacedBy == None
  {
    assert i in c;
    var k :| 0 <= k < |c| && c[k] == i;
  }

  // ---- Every step keeps the locks

  lemma LocksKeep(s: Store, step: Step)
    requires LocksAgree(s) && Enabled(s, step)
    ensures LocksAgree(Apply(s, step))
  {
    match step
    case IssueFamily(_) =>
    case TryLock(_) => TryLockKeepsLocks(s, step);
    case Acquire(_) => AcquireKeepsLocks(s, step);
    case InsertReplacement(_) => PlanKeepsLocks(s, step);
    case DetectReuse(_) => PlanKeepsLocks(s, step);
    case StartRevoke(_) =>
    case LockTarget(_, _) => LockTargetKeepsLocks(s, step);
    case CommitRotation(t) => FinishKeepsLocks(s, t);
    case CommitRevoke(t) => FinishKeepsLocks(s, t);
    case Rollback(t) => FinishKeepsLocks(s, t);
  }

  lemma FinishKeepsLocks(s: Store, t: nat)
    requires LocksAgree(s)
    ensures LocksAgree(Finish(s, t))
  {
  }

  lemma TryLockKeepsLocks(s: Store, step: Step)
    requires LocksAgree(s) && step.TryLock? && Enabled(s, step)
    ensures LocksAgree(Apply(s, step))
  {
  }

  lemma AcquireKeepsLocks(s: Store, step: Step)
    requires LocksAgree(s) && step.Acquire? && Enabled(s, step)
    ensures LocksAgree(Apply(s, step))
  {
  }

  lemma PlanKeepsLocks(s: Store, step: Step)
    requires LocksAgree(s) && (step.InsertReplacement? || step.DetectReuse?) && Enabled(s, step)
    ensures LocksAgree(Apply(s, step))
  {
    var t, s' := step.txn, Apply(s, step);
    forall i ensures Holds(s'.txns[t], i) <==> Holds(s.txns[t], i) {
    }
  }

  lemma LockTargetKeepsLocks(s: Store, step: Step)
    requires LocksAgree(s) && step.LockTarget? && Enabled(s, step)
    ensures LocksAgree(Apply(s, step))
  {
    var t, s' := step.txn, Apply(s, step);
    forall i ensures Holds(s'.txns[t], i) <==> Holds(s.txns[t], i) || i == step.token {
    }
  }

  // ---- Every step keeps rows read under lock

  /** Another transaction's target is not locked by t, so t's commit cannot have touched it. */
  lemma OthersUntouched(s: Store, t: nat, u: nat)
    requires LocksAgree(s) && t in s.txns && u in s.txns && t != u
    requires s.txns[u].Holding? || s.txns[u].Rotating?
    ensures !Holds(s.txns[t], s.txns[u].target)
  {
    var i := s.txns[u].target;
    assert Holds(s.txns[u], i);
    assert s.locks[i] == u;
    assert forall v :: v in s.txns && Holds(s.txns[v], i) ==> s.locks[i] == v;
  }

  ghost predicate TxnRowIsStable(s: Store, t: nat) {
    t in s.txns ==>
      ((s.txns[t].Holding? || s.txns[t].Rotating?) ==>
         s.txns[t].target in s.tokens && s.tokens[s.txns[t].target] == s.txns[t].row)
      && (s.txns[t].Rotating? ==>
            !s.txns[t].row.revoked && s.txns[t].replacement < s.nextToken && s.txns[t].replacement !in s.tokens
            && s.txns[t].target < s.txns[t].replacement)
  }

  lemma RowKeepsOverRotation(s: Store, t: nat, u: nat)
    requires ChainsHold(s) && LocksAgree(s) && RowsAreStable(s) && Enabled(s, CommitRotation(t))
    ensures TxnRowIsStable(Apply(s, CommitRotation(t)), u)
  {
    assert TxnRowIsStable(s, u) && TxnRowIsStable(s, t);
    if u in s.txns && u != t && (s.txns[u].Holding? || s.txns[u].Rotating?) {
      OthersUntouched(s, t, u);
      assert s.txns[u].target != s.txns[t].target;
    }
    RowSurvivesRotation(s, t, u);
  }

  lemma RowSurvivesRotation(s: Store, t: nat, u: nat)
    requires Enabled(s, CommitRotation(t)) && TxnRowIsStable(s, u) && TxnRowIsStable(s, t)
    requires u in s.txns && u != t ==>
               (s.txns[u].Holding? ==> s.txns[u].target != s.txns[t].target)
               && (s.txns[u].Rotating? ==>
                  s.txns[u].target != s.txns[t].target && s.txns[u].replacement != s.txns[t].replacement)
    ensures TxnRowIsStable(Apply(s, CommitRotation(t)), u)
  {
  }

  lemma RowKeepsOverRevocation(s: Store, t: nat, u: nat)
    requires ChainsHold(s) && LocksAgree(s) && RowsAreStable(s) && Enabled(s, CommitRevoke(t))
    ensures TxnRowIsStable(Apply(s, CommitRevoke(t)), u)
  {
    if u in s.txns && u != t && (s.txns[u].Holding? || s.txns[u].Rotating?) {
      OthersUntouched(s, t, u);
      assert s.txns[u].target !in s.txns[t].targets;
      assert TxnRowIsStable(s, u);
    }
  }

  lemma RowKeepsOverLocking(s: Store, step: Step, u: nat)
    requires FamiliesKnown(s) && TxnRowIsStable(s, u) && Enabled(s, step)
    requires step.TryLock? || step.Acquire? || step.InsertReplacement? || step.IssueFamily?
    ensures TxnRowIsStable(Apply(s, step), u)
  {
    match step
    case TryLock(_) =>
    case Acquire(_) =>
    case InsertReplacement(_) =>
    case IssueFamily(_) =>
  }

  lemma RowKeepsOtherwise(s: Store, step: Step, u: nat)
    requires TxnRowIsStable(s, u) && Enabled(s, step)
    requires step.DetectReuse? || step.StartRevoke? || step.LockTarget? || step.Rollback?
    ensures TxnRowIsStable(Apply(s, step), u)
  {
    match step
    case DetectReuse(_) =>
    case StartRevoke(_) =>
    case LockTarget(_, _) =>
    case Rollback(_) =>
  }

  lemma RowKeeps(s: Store, step: Step, u: nat)
    requires ChainsHold(s) && LocksAgree(s) && RowsAreStable(s) && Enabled(s, step)
    ensures TxnRowIsStable(Apply(s, step), u)
  {
    match step
    case CommitRotation(t) => RowKeepsOverRotation(s, t, u);
    case CommitRevoke(t) => RowKeepsOverRevocation(s, t, u);
    case _ =>
      RowIsStable(s, u);
      KnownFamilies(s);
      RowKeepsOverPlainStep(s, step, u);
  }

  lemma RowIsStable(s: Store, u: nat)
    requires RowsAreStable(s)
    ensures TxnRowIsStable(s, u)
  {
  }

  lemma RowKeepsOverPlainStep(s: Store, step: Step, u: nat)
    requires FamiliesKnown(s) && TxnRowIsStable(s, u) && Enabled(s, step)
    requires !step.CommitRotation? && !step.CommitRevoke?
    ensures TxnRowIsStable(Apply(s, step), u)
  {
    if step.TryLock? || step.Acquire? || step.InsertReplacement? || step.IssueFamily? {
      RowKeepsOverLocking(s, step, u);
    } else {
      RowKeepsOtherwise(s, step, u);
    }
  }

  lemma ReplacementsDiffer(s: Store, step: Step, u: nat, v: nat)
    requires RowsAreStable(s) && Enabled(s, step) && u != v
    ensures var txns := Apply(s, step).txns;
            u in txns && v in txns && txns[u].Rotating? && txns[v].Rotating? ==>
                txns[u].replacement != txns[v].replacement
  {
  }

  lemma RowsKeep(s: Store, step: Step)
    requires ChainsHold(s) && LocksAgree(s) && RowsAreStable(s) && Enabled(s, step)
    ensures RowsAreStable(Apply(s, step))
  {
    var s' := Apply(s, step);
    forall u: nat ensures TxnRowIsStable(s', u) { RowKeeps(s, step, u); }
    forall u: nat, v: nat | u in s'.txns && v in s'.txns && u != v && s'.txns[u].Rotating? && s'.txns[v].Rotating?
      ensures s'.txns[u].replacement != s'.txns[v].replacement
    {
      ReplacementsDiffer(s, step, u, v);
    }
    StableFrom(s');
  }

  lemma StableFrom(s: Store)
    requires forall u: nat :: TxnRowIsStable(s, u)
    requires forall u: nat, v: nat ::
               u in s.txns && v in s.txns && u != v && s.txns[u].Rotating? && s.txns[v].Rotating? ==>
               s.txns[u].replacement != s.txns[v].replacement
    ensures RowsAreStable(s)
  {
    forall t: nat | t in s.txns ensures TxnRowIsStable(s, t) {}
  }

  // ---- Every step keeps the chains

  lemma IssueKeepsChains(s: Store, step: Step)
    requires ChainsHold(s) && step.IssueFamily?
    ensures ChainsHold(Apply(s, step))
  {
    var s' := Apply(s, step);
    forall f | f in s'.chains ensures IsChain(s'.tokens, f, s'.chains[f]) {
      if f in s.chains { OldChainHolds(s, s'.tokens, f); }
    }
  }

  /** A chain is a statement about its own family only. */
  lemma OldChainHolds(s: Store, tokens: map<nat, Token>, f: nat)
    requires ChainsHold(s) && f in s.chains
    requires forall i :: i in s.tokens && s.tokens[i].family == f ==> i in tokens && tokens[i] == s.tokens[i]
    requires forall i :: i in tokens && tokens[i].family == f ==> i in s.tokens && s.tokens[i].family == f
    ensures IsChain(tokens, f, s.chains[f])
  {
    var c := s.chains[f];
    assert forall k :: 0 <= k < |c| ==> c[k] in c;
  }

  lemma RotateKeepsChain(tokens: map<nat, Token>, f: nat, c: seq<nat>, i: nat, r: nat)
    requires IsChain(tokens, f, c) && i in tokens && tokens[i].family == f && !tokens[i].revoked
    requires r !in tokens && forall k :: k in tokens && tokens[k].family == f ==> k < r
    ensures IsChain(Rotate(tokens, i, r), f, c + [r])
  {
    UnrevokedIsLast(tokens, f, c, i);
    var c', tokens' := c + [r], Rotate(tokens, i, r);
    assert forall k :: 0 <= k < |c| ==> c[k] in c;
    assert forall x :: x in c' <==> x in c || x == r;
    forall k | 0 <= k < |c'| - 1 ensures tokens'[c'[k]].revoked && tokens'[c'[k]].replacedBy == Some(c'[k + 1]) {
      if k < |c| - 1 { assert c[k] < c[|c| - 1]; }
    }
  }

  lemma RotationKeepsChains(s: Store, step: Step)
    requires ChainsHold(s) && LocksAgree(s) && RowsAreStable(s) && step.CommitRotation? && Enabled(s, step)
    ensures ChainsHold(Apply(s, step))
  {
    var i, r := s.txns[step.txn].target, s.txns[step.txn].replacement;
    RotationExtendsLast(s, step.txn);
    RotateKeepsChains(s, i, r);
    ExtendedChainsHold(s, Apply(s, step), i, r);
  }

  lemma ExtendedChainsHold(s: Store, s': Store, i: nat, r: nat)
    requires ChainsHold(s) && i in s.tokens && r < s.nextToken
    requires s'.tokens == Rotate(s.tokens, i, r) && s'.chains == Extend(s.chains, s.tokens[i].family, r)
    requires s'.nextToken == s.nextToken && s'.nextFamily == s.nextFamily
    requires forall g :: g in s'.chains ==> IsChain(s'.tokens, g, s'.chains[g])
    ensures ChainsHold(s')
  {
    KnownFamilies(s);
    FamiliesStayKnown(s, s', i, r);
  }

  /** Ids and families come from the counters, and every token's family has a chain. */
  ghost predicate FamiliesKnown(s: Store) {
    (forall f :: f in s.chains ==> f < s.nextFamily)
    && (forall i :: i in s.tokens ==> i < s.nextToken && s.tokens[i].family in s.chains)
  }

  lemma KnownFamilies(s: Store)
    requires ChainsHold(s)
    ensures FamiliesKnown(s)
  {
  }

  lemma FamiliesStayKnown(s: Store, s': Store, i: nat, r: nat)
    requires FamiliesKnown(s) && i in s.tokens && r < s.nextToken
    requires s'.tokens == Rotate(s.tokens, i, r) && s'.chains == Extend(s.chains, s.tokens[i].family, r)
    requires s'.nextToken == s.nextToken && s'.nextFamily == s.nextFamily
    ensures FamiliesKnown(s')
  {
  }

  lemma RotateKeepsChains(s: Store, i: nat, r: nat)
    requires ChainsHold(s) && i in s.tokens && !s.tokens[i].revoked && r !in s.tokens
    requires forall k :: k in s.tokens && s.tokens[k].family == s.tokens[i].family ==> k < r
    ensures forall g :: g in Extend(s.chains, s.tokens[i].family, r) ==>
              IsChain(Rotate(s.tokens, i, r), g, Extend(s.chains, s.tokens[i].family, r)[g])
  {
    var f, tokens' := s.tokens[i].family, Rotate(s.tokens, i, r);
    var chains' := Extend(s.chains, f, r);
    forall g | g in chains' ensures IsChain(tokens', g, chains'[g]) {
      if g == f { RotateKeepsChain(s.tokens, f, s.chains[f], i, r); } else { OldChainHolds(s, tokens', g); }
    }
  }

  /** The guard of RotateRefreshToken never fails under the row lock, and the replacement is the family's newest id. */
  lemma RotationExtendsLast(s: Store, t: nat)
    requires ChainsHold(s) && RowsAreStable(s) && t in s.txns && s.txns[t].Rotating?
    ensures s.txns[t].target in s.tokens && !s.tokens[s.txns[t].target].revoked
    ensures forall k :: k in s.tokens && s.tokens[k].family == s.tokens[s.txns[t].target].family ==>
              k < s.txns[t].replacement
  {
    var i, f := s.txns[t].target, s.tokens[s.txns[t].target].family;
    var c := s.chains[f];
    UnrevokedIsLast(s.tokens, f, c, i);
    forall k | k in s.tokens && s.tokens[k].family == f ensures k <= i {
      assert k in c;
      var n :| 0 <= n < |c| && c[n] == k;
    }
  }

  lemma RevokeAllKeepsChain(tokens: map<nat, Token>, targets: set<nat>, f: nat, c: seq<nat>)
    requires IsChain(tokens, f, c)
    ensures IsChain(RevokeAll(tokens, targets), f, c)
  {
    assert forall k :: 0 <= k < |c| ==> c[k] in c;
  }

  lemma RevokeKeepsChains(s: Store, step: Step)
    requires ChainsHold(s) && step.CommitRevoke? && Enabled(s, step)
    ensures ChainsHold(Apply(s, step))
  {
    var s', targets := Apply(s, step), s.txns[step.txn].targets;
    forall f | f in s'.chains ensures IsChain(s'.tokens, f, s'.chains[f]) {
      RevokeAllKeepsChain(s.tokens, targets, f, s.chains[f]);
    }
  }

  lemma ChainsKeep(s: Store, step: Step)
    requires ChainsHold(s) && LocksAgree(s) && RowsAreStable(s) && Enabled(s, step)
    ensures ChainsHold(Apply(s, step))
  {
    match step
    case IssueFamily(_) => IssueKeepsChains(s, step);
    case CommitRotation(_) => RotationKeepsChains(s, step);
    case CommitRevoke(_) => RevokeKeepsChains(s, step);
    case _ => SameTokens(s, step);
  }

  lemma SameTokens(s: Store, step: Step)
    requires Enabled(s, step) && !step.IssueFamily? && !step.CommitRotation? && !step.CommitRevoke?
    ensures Apply(s, step).tokens == s.tokens && Apply(s, step).chains == s.chains
            && Apply(s, step).rotations == s.rotations
    ensures Apply(s, step).nextFamily == s.nextFamily && Apply(s, step).nextToken >= s.nextToken
  {
  }

  // ---- Every step keeps the history

  /** Revocation is permanent, links are never redirected, tokens never move or vanish. */
  ghost predicate Grows(before: map<nat, Token>, after: map<nat, Token>) {
    forall i :: i in before ==>
      i in after && after[i].family == before[i].family && after[i].device == before[i].device
      && (before[i].revoked ==> after[i].revoked)
      && (before[i].replacedBy.Some? ==> after[i].replacedBy == before[i].replacedBy)
  }

  lemma RotateGrows(tokens: map<nat, Token>, i: nat, r: nat)
    requires i in tokens && tokens[i].replacedBy == None && r !in tokens
    ensures Grows(tokens, Rotate(tokens, i, r))
  {
  }

  /** The row a rotation consumes is unrevoked and unlinked, and its replacement is new. */
  lemma RotationIsFresh(s: Store, t: nat)
    requires ChainsHold(s) && RowsAreStable(s) && t in s.txns && s.txns[t].Rotating?
    ensures var i := s.txns[t].target;
            i in s.tokens && !s.tokens[i].revoked && s.tokens[i].replacedBy == None
                && s.txns[t].replacement !in s.tokens
  {
    RotationExtendsLast(s, t);
    var i := s.txns[t].target;
    UnrevokedIsLast(s.tokens, s.tokens[i].family, s.chains[s.tokens[i].family], i);
  }

  lemma AddGrows(tokens: map<nat, Token>, i: nat, t: Token)
    requires i !in tokens
    ensures Grows(tokens, tokens[i := t])
  {
  }

  lemma RevokeAllGrows(tokens: map<nat, Token>, targets: set<nat>)
    ensures Grows(tokens, RevokeAll(tokens, targets))
  {
  }

  lemma CommittedRotation(s: Store, t: nat)
    requires ChainsHold(s) && RowsAreStable(s) && t in s.txns && s.txns[t].Rotating?
    ensures var s', i, r := Apply(s, CommitRotation(t)), s.txns[t].target, s.txns[t].replacement;
            i in s.tokens && s.tokens[i].replacedBy == None && r !in s.tokens
            && s'.tokens == Rotate(s.tokens, i, r) && s'.rotations == s.rotations + [Rotated(t, i, r)]
  {
    RotationIsFresh(s, t);
  }

  lemma TokensGrow(s: Store, step: Step)
    requires ChainsHold(s) && RowsAreStable(s) && Enabled(s, step)
    ensures Grows(s.tokens, Apply(s, step).tokens)
  {
    match step
    case IssueFamily(d) => AddGrows(s.tokens, s.nextToken, Token(s.nextFamily, d, false, None));
    case CommitRotation(t) =>
      CommittedRotation(s, t);
      RotateGrows(s.tokens, s.txns[t].target, s.txns[t].replacement);
    case CommitRevoke(t) => RevokeAllGrows(s.tokens, s.txns[t].targets);
    case _ => SameTokens(s, step);
  }

  lemma RecordedGrows(before: Store, after: Store)
    requires RotationsRecorded(before) && Grows(before.tokens, after.tokens) && after.rotations == before.rotations
    ensures RotationsRecorded(after)
  {
  }

  lemma RecordRotation(s: Store, t: nat)
    requires ChainsHold(s) && RowsAreStable(s) && RotationsRecorded(s) && t in s.txns && s.txns[t].Rotating?
    ensures RotationsRecorded(Apply(s, CommitRotation(t)))
  {
    CommittedRotation(s, t);
    var s', i, r := Apply(s, CommitRotation(t)), s.txns[t].target, s.txns[t].replacement;
    RotateGrows(s.tokens, i, r);
    forall k | 0 <= k < |s.rotations| ensures s.rotations[k].consumed != i {
      assert s.tokens[s.rotations[k].consumed].replacedBy == Some(s.rotations[k].replacement);
    }
    RecordedAppend(s, s', Rotated(t, i, r));
  }

  lemma RecordedAppend(before: Store, after: Store, last: Rotated)
    requires RotationsRecorded(before) && Grows(before.tokens, after.tokens)
    requires after.rotations == before.rotations + [last]
    requires last.consumed in after.tokens && after.tokens[last.consumed].replacedBy == Some(last.replacement)
    requires forall k :: 0 <= k < |before.rotations| ==> before.rotations[k].consumed != last.consumed
    ensures RotationsRecorded(after)
  {
  }

  lemma RotationsKeep(s: Store, step: Step)
    requires ChainsHold(s) && RowsAreStable(s) && RotationsRecorded(s) && Enabled(s, step)
    ensures RotationsRecorded(Apply(s, step))
  {
    if step.CommitRotation? {
      RecordRotation(s, step.txn);
    } else {
      TokensGrow(s, step);
      RecordedGrows(s, Apply(s, step));
    }
  }

  ghost predicate Reaches(tokens: map<nat, Token>, txn: Txn) {
    txn.Revoking? ==>
      txn.snapshot <= tokens.Keys && txn.targets <= txn.snapshot
      && forall i :: i in txn.snapshot && Covers(txn.scope, tokens[i]) && !tokens[i].revoked ==> i in txn.targets
  }

  lemma ReachGrows(before: map<nat, Token>, after: map<nat, Token>, txn: Txn)
    requires Grows(before, after) && Reaches(before, txn)
    ensures Reaches(after, txn)
  {
    if txn.Revoking? {
      forall i | i in txn.snapshot && Covers(txn.scope, after[i]) && !after[i].revoked ensures i in txn.targets {
        assert i in before;
      }
    }
  }

  lemma RevocationKeeps(s: Store, step: Step, u: nat)
    requires Enabled(s, step) && Grows(s.tokens, Apply(s, step).tokens)
    requires forall t :: t in s.txns ==> Reaches(s.tokens, s.txns[t])
    ensures u in Apply(s, step).txns ==> Reaches(Apply(s, step).tokens, Apply(s, step).txns[u])
  {
    if u in s.txns { ReachGrows(s.tokens, Apply(s, step).tokens, s.txns[u]); }
  }

  lemma RevocationsKeep(s: Store, step: Step)
    requires ChainsHold(s) && RowsAreStable(s) && RevocationsReach(s) && Enabled(s, step)
    ensures RevocationsReach(Apply(s, step))
  {
    TokensGrow(s, step);
    var s' := Apply(s, step);
    forall u | u in s'.txns ensures Reaches(s'.tokens, s'.txns[u]) { RevocationKeeps(s, step, u); }
  }

  lemma StepKeeps(s: Store, step: Step)
    requires Inv(s) && Enabled(s, step)
    ensures Inv(Apply(s, step))
  {
    ChainsKeep(s, step);
    LocksKeep(s, step);
    RowsKeep(s, step);
    RevocationsKeep(s, step);
    RotationsKeep(s, step);
  }

  lemma {:induction false} RunKeeps(s: Store, steps: seq<Step>)
    requires Inv(s) && Legal(s, steps)
    ensures Inv(Run(s, steps))
    decreases steps
  {
    if steps != [] {
      StepKeeps(s, steps[0]);
      RunKeeps(Apply(s, steps[0]), steps[1..]);
    }
  }

  // ---- Main results

  /** In every interleaving: no token is consumed by two successful refreshes, the tokens of each family form one
      acyclic replaced_by chain in order of issue, and at most its last token is unrevoked. */
  lemma RotationIsSafe(steps: seq<Step>)
    requires Legal(EMPTY, steps)
    ensures var s := Run(EMPTY, steps);
            (forall k, l :: 0 <= k < l < |s.rotations| ==> s.rotations[k].consumed != s.rotations[l].consumed)
            && (forall i :: i in s.tokens ==>
                  s.tokens[i].family in s.chains && IsChain(s.tokens, s.tokens[i].family, s.chains[s.tokens[i].family]))
            && (forall i, j :: (i in s.tokens && j in s.tokens && s.tokens[i].family == s.tokens[j].family
                                && !s.tokens[i].revoked && !s.tokens[j].revoked) ==> i == j)
  {
    EmptyIsSound();
    RunKeeps(EMPTY, steps);
    var s := Run(EMPTY, steps);
    forall i, j | i in s.tokens && j in s.tokens && s.tokens[i].family == s.tokens[j].family
                  && !s.tokens[i].revoked && !s.tokens[j].revoked
      ensures i == j
    {
      var f := s.tokens[i].family;
      UnrevokedIsLast(s.tokens, f, s.chains[f], i);
      UnrevokedIsLast(s.tokens, f, s.chains[f], j);
    }
  }

  /** What is consumed stays consumed, by whatever runs afterwards. */
  lemma {:induction false} RunGrows(s: Store, steps: seq<Step>)
    requires Inv(s) && Legal(s, steps)
    ensures Grows(s.tokens, Run(s, steps).tokens)
    decreases steps
  {
    if steps != [] {
      StepKeeps(s, steps[0]);
      TokensGrow(s, steps[0]);
      RunGrows(Apply(s, steps[0]), steps[1..]);
    }
  }

  /** A committed revocation leaves no token of its snapshot unrevoked; so the scope has no unrevoked token at all if
      and only if no token outside the snapshot, put in by a rotation or login that committed in between, is
      unrevoked. */
  lemma RevocationReach(s: Store, t: nat)
    requires RevocationsReach(s) && Enabled(s, CommitRevoke(t))
    ensures var s' := Apply(s, CommitRevoke(t));
            (forall i :: i in s.txns[t].snapshot && Covers(s.txns[t].scope, s.tokens[i]) ==> s'.tokens[i].revoked)
            && (Live(s', s.txns[t].scope) == {} <==>
                  forall i :: i in Live(s, s.txns[t].scope) ==> i in s.txns[t].snapshot)
  {
    assert Reaches(s.tokens, s.txns[t]);
    var s', txn := Apply(s, CommitRevoke(t)), s.txns[t];
    forall i ensures i in Live(s', txn.scope) <==> i in Live(s, txn.scope) && i !in txn.snapshot {
      RevokedOrOutside(s.tokens, txn, i);
    }
    forall i | i in txn.snapshot && Covers(txn.scope, s.tokens[i]) ensures s'.tokens[i].revoked {
      RevokedOrOutside(s.tokens, txn, i);
    }
  }

  /** After the revocation a covered token is unrevoked exactly if it was and the snapshot does not have it. */
  lemma RevokedOrOutside(tokens: map<nat, Token>, txn: Txn, i: nat)
    requires txn.Revoking? && Reaches(tokens, txn)
    ensures i in txn.snapshot ==> i in tokens
    ensures i in tokens && Covers(txn.scope, tokens[i]) ==>
              (!RevokeAll(tokens, txn.targets)[i].revoked <==> !tokens[i].revoked && i !in txn.snapshot)
  {
  }
}
