/** Refresh-token rotation under row locks, over every interleaving of refresh,
logout, login and device-revocation transactions.

A refresh first tries its token's row with FOR UPDATE NOWAIT; if another
transaction holds the row it waits and is marked contended.  Multi-row
revocations are UPDATE statements: they see the rows of their own snapshot and
lock them one at a time.  Nothing is visible to others before commit. */
module Rotation {
  import opened Options

  datatype Token = Token(family: nat, device: nat, revoked: bool, replacedBy: Option<nat>)

  /** What a revocation covers. */
  datatype Scope = Family(family: nat) | Device(device: nat)

  predicate Covers(scope: Scope, t: Token) {
    match scope
    case Family(f) => t.family == f
    case Device(d) => t.device == d
  }

  datatype Txn =
    | Waiting(target: nat)
    | Holding(target: nat, contended: bool, row: Token)
    | Rotating(target: nat, row: Token, replacement: nat)
    | Revoking(scope: Scope, snapshot: set<nat>, targets: set<nat>, locked: set<nat>)

  datatype Rotated = Rotated(txn: nat, consumed: nat, replacement: nat)

  /** `chains` and `rotations` are history: each family's tokens in order of issue, and the committed rotations. */
  datatype Store = Store(
    tokens: map<nat, Token>, nextToken: nat, nextFamily: nat, nextTxn: nat,
    locks: map<nat, nat>, txns: map<nat, Txn>,
    chains: map<nat, seq<nat>>, rotations: seq<Rotated>)

  const EMPTY := Store(map[], 0, 0, 0, map[], map[], map[], [])

  datatype Step =
    | IssueFamily(device: nat)
    | TryLock(token: nat)
    | Acquire(txn: nat)
    | InsertReplacement(txn: nat)
    | CommitRotation(txn: nat)
    | DetectReuse(txn: nat)
    | StartRevoke(scope: Scope)
    | LockTarget(txn: nat, token: nat)
    | CommitRevoke(txn: nat)
    | Rollback(txn: nat)

  function Live(s: Store, scope: Scope): set<nat> {
    set i | i in s.tokens && Covers(scope, s.tokens[i]) && !s.tokens[i].revoked
  }

  predicate Enabled(s: Store, step: Step) {
    match step
    case IssueFamily(_) => true
    case TryLock(i) => i in s.tokens
    case Acquire(t) => t in s.txns && s.txns[t].Waiting? && s.txns[t].target !in s.locks
    case InsertReplacement(t) => t in s.txns && s.txns[t].Holding? && !s.txns[t].row.revoked
    case CommitRotation(t) => t in s.txns && s.txns[t].Rotating?
    case DetectReuse(t) => t in s.txns && s.txns[t].Holding? && s.txns[t].row.revoked && !s.txns[t].contended
    case StartRevoke(_) => true
    case LockTarget(t, i) => t in s.txns && s.txns[t].Revoking? && i in s.txns[t].targets && i !in s.locks
    case CommitRevoke(t) => t in s.txns && s.txns[t].Revoking? && s.txns[t].targets <= s.txns[t].locked
    case Rollback(t) => t in s.txns
  }

  /** The end of a transaction releases its row locks. */
  function Finish(s: Store, t: nat): Store {
    s.(txns := s.txns - {t}, locks := map i | i in s.locks && s.locks[i] != t :: s.locks[i])
  }

  function RevokeAll(tokens: map<nat, Token>, targets: set<nat>): map<nat, Token> {
    map i | i in tokens :: if i in targets then tokens[i].(revoked := true) else tokens[i]
  }

  /** The presented token is consumed and points at its replacement, which continues the family. */
  function Rotate(tokens: map<nat, Token>, i: nat, replacement: nat): map<nat, Token>
    requires i in tokens
  {
    tokens[i := tokens[i].(revoked := true, replacedBy := Some(replacement))]
          [replacement := Token(tokens[i].family, tokens[i].device, false, None)]
  }

  function Extend(chains: map<nat, seq<nat>>, f: nat, i: nat): map<nat, seq<nat>> {
    chains[f := (if f in chains then chains[f] else []) + [i]]
  }

  function Apply(s: Store, step: Step): Store
    requires Enabled(s, step)
  {
    match step
    // issueTokenPair's INSERT, after its own revocation by device has committed.
    case IssueFamily(d) =>
      s.(tokens := s.tokens[s.nextToken := Token(s.nextFamily, d, false, None)],
         nextToken := s.nextToken + 1, nextFamily := s.nextFamily + 1,
         chains := Extend(s.chains, s.nextFamily, s.nextToken))
    case TryLock(i) =>
      var t := s.nextTxn;
      var begun := s.(nextTxn := t + 1);
      if i in s.locks then begun.(txns := s.txns[t := Waiting(i)])
      else begun.(txns := s.txns[t := Holding(i, false, s.tokens[i])], locks := s.locks[i := t])
    case Acquire(t) =>
      var i := s.txns[t].target;
      if i in s.tokens then s.(txns := s.txns[t := Holding(i, true, s.tokens[i])], locks := s.locks[i := t]) else s
    case InsertReplacement(t) =>
      s.(txns := s.txns[t := Rotating(s.txns[t].target, s.txns[t].row, s.nextToken)], nextToken := s.nextToken + 1)
    // UPDATE ... WHERE id = target AND revoked_at IS NULL; no row means an error and a rollback.
    case CommitRotation(t) =>
      var i, r := s.txns[t].target, s.txns[t].replacement;
      if i !in s.tokens || s.tokens[i].revoked then Finish(s, t)
      else Finish(s, t).(tokens := Rotate(s.tokens, i, r),
                         chains := Extend(s.chains, s.tokens[i].family, r),
                         rotations := s.rotations + [Rotated(t, i, r)])
    case DetectReuse(t) =>
      var scope := Family(s.txns[t].row.family);
      s.(txns := s.txns[t := Revoking(scope, s.tokens.Keys, Live(s, scope), {s.txns[t].target})])
    case StartRevoke(scope) =>
      s.(nextTxn := s.nextTxn + 1, txns := s.txns[s.nextTxn := Revoking(scope, s.tokens.Keys, Live(s, scope), {})])
    case LockTarget(t, i) =>
      s.(txns := s.txns[t := s.txns[t].(locked := s.txns[t].locked + {i})], locks := s.locks[i := t])
    case CommitRevoke(t) => Finish(s, t).(tokens := RevokeAll(s.tokens, s.txns[t].targets))
    case Rollback(t) => Finish(s, t)
  }

  predicate Legal(s: Store, steps: seq<Step>)
    decreases steps
  {
    steps == [] || (Enabled(s, steps[0]) && Legal(Apply(s, steps[0]), steps[1..]))
  }

  function Run(s: Store, steps: seq<Step>): Store
    requires Legal(s, steps)
    decreases steps
  {
    if steps == [] then s else Run(Apply(s, steps[0]), steps[1..])
  }

  // ---- Putting runs together

  lemma {:induction false} JoinRuns(s: Store, a: seq<Step>, b: seq<Step>)
    requires Legal(s, a) && Legal(Run(s, a), b)
    ensures Legal(s, a + b) && Run(s, a + b) == Run(Run(s, a), b)
    decreases a
  {
    if a == [] {
      assert a + b == b;
    } else {
      assert (a + b)[0] == a[0] && (a + b)[1..] == a[1..] + b;
      JoinRuns(Apply(s, a[0]), a[1..], b);
    }
  }

  lemma OneStep(s: Store, step: Step)
    requires Enabled(s, step)
    ensures Legal(s, [step]) && Run(s, [step]) == Apply(s, step)
  {
    assert [step][1..] == [];
    assert Legal(Apply(s, step), []);
  }

  lemma TwoSteps(s: Store, a: Step, b: Step)
    requires Enabled(s, a) && Enabled(Apply(s, a), b)
    ensures Legal(s, [a, b]) && Run(s, [a, b]) == Apply(Apply(s, a), b)
  {
    OneStep(s, a);
    OneStep(Apply(s, a), b);
    JoinRuns(s, [a], [b]);
    assert [a] + [b] == [a, b];
  }

  lemma ThreeSteps(s: Store, a: Step, b: Step, c: Step)
    requires Enabled(s, a) && Enabled(Apply(s, a), b) && Enabled(Apply(Apply(s, a), b), c)
    ensures Legal(s, [a, b, c]) && Run(s, [a, b, c]) == Apply(Apply(Apply(s, a), b), c)
  {
    TwoSteps(s, a, b);
    OneStep(Apply(Apply(s, a), b), c);
    JoinRuns(s, [a, b], [c]);
    assert [a, b] + [c] == [a, b, c];
  }
}
