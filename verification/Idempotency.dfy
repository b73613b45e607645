// Four components joined by NUL; the hash over them is taken to be injective.
module Idempotency {
  import opened Options
  import opened Numerals
  import Texts

  type Key = string

  datatype StepIdentity = StepIdentity(runId: string, nodeId: string, iterationIndex: nat, attemptGroup: nat)

  const SEPARATOR: char := '\0'

  /** What assertIdentityValid lets through; the two numbers are naturals by type. */
  predicate ValidComponent(s: string) {
    s != "" && SEPARATOR !in s
  }

  predicate ValidIdentity(id: StepIdentity) {
    ValidComponent(id.runId) && ValidComponent(id.nodeId)
  }

  function Decimal(n: nat): (s: string)
    ensures s != "" && SEPARATOR !in s
  {
    NumeralLead(n, 10);
    NumeralLowerCase(n, 10);
    Numeral(n, 10)
  }

  /** An error is the RangeError the source throws; createRun then rolls back. */
  function StepIdempotencyKey(id: StepIdentity): Option<Key> {
    if ValidIdentity(id) then Some(Material(id)) else None
  }

  function Material(id: StepIdentity): Key {
    id.runId + [SEPARATOR]
      + (id.nodeId + [SEPARATOR] + (Decimal(id.iterationIndex) + [SEPARATOR] + Decimal(id.attemptGroup)))
  }

  datatype Replay = Replay(key: Key, identity: StepIdentity)

  function ReplayKey(id: StepIdentity): Option<Replay> {
    var next := id.(attemptGroup := id.attemptGroup + 1);
    match StepIdempotencyKey(next)
    case Some(k) => Some(Replay(k, next))
    case None => None
  }

  lemma JoinedParts(a: string, x: string)
    ensures var j := a + [SEPARATOR] + x;
      && j[|a|] == SEPARATOR
      && (forall i :: 0 <= i < |a| ==> j[i] == a[i])
      && j[..|a|] == a
      && j[|a| + 1..] == x
  {
  }

  /** A NUL-free prefix is found again by the first NUL. */
  lemma {:induction false} JoinInjective(a: string, x: string, b: string, y: string)
    requires SEPARATOR !in a && SEPARATOR !in b
    requires a + [SEPARATOR] + x == b + [SEPARATOR] + y
    ensures a == b && x == y
  {
    JoinedParts(a, x);
    JoinedParts(b, y);
  }

  /** Keys collide only for the same run, node, iteration and attempt group. */
  lemma KeysDiffer(a: StepIdentity, b: StepIdentity)
    requires ValidIdentity(a) && ValidIdentity(b)
    requires Material(a) == Material(b)
    ensures a == b
  {
    JoinInjective(a.runId, a.nodeId + [SEPARATOR] + (Decimal(a.iterationIndex) + [SEPARATOR] + Decimal(a.attemptGroup)),
                  b.runId, b.nodeId + [SEPARATOR]
                    + (Decimal(b.iterationIndex) + [SEPARATOR] + Decimal(b.attemptGroup)));
    JoinInjective(a.nodeId, Decimal(a.iterationIndex) + [SEPARATOR] + Decimal(a.attemptGroup),
                  b.nodeId, Decimal(b.iterationIndex) + [SEPARATOR] + Decimal(b.attemptGroup));
    JoinInjective(Decimal(a.iterationIndex), Decimal(a.attemptGroup), Decimal(b.iterationIndex),
      Decimal(b.attemptGroup));
    NumeralInjective(a.iterationIndex, b.iterationIndex, 10);
    NumeralInjective(a.attemptGroup, b.attemptGroup, 10);
  }

  /** A replay never reuses a key of the same step, whatever groups came before. */
  lemma ReplayIsNewIntent(id: StepIdentity, earlier: nat)
    requires ValidIdentity(id) && earlier <= id.attemptGroup
    ensures ReplayKey(id).Some?
    ensures ReplayKey(id).value.key != Material(id.(attemptGroup := earlier))
  {
    var next := id.(attemptGroup := id.attemptGroup + 1);
    if Material(next) == Material(id.(attemptGroup := earlier)) {
      KeysDiffer(next, id.(attemptGroup := earlier));
      assert false;
    }
  }

  /** The four components, in this order, with NUL between them; the hash is taken over that. */
  lemma MaterialParts(id: StepIdentity)
    requires ValidIdentity(id)
    ensures StepIdempotencyKey(id).Some?
    ensures Texts.SplitChar(StepIdempotencyKey(id).value, SEPARATOR)
         == [id.runId, id.nodeId, Decimal(id.iterationIndex), Decimal(id.attemptGroup)]
  {
    var parts := [id.runId, id.nodeId, Decimal(id.iterationIndex), Decimal(id.attemptGroup)];
    assert parts[1..] == [id.nodeId, Decimal(id.iterationIndex), Decimal(id.attemptGroup)];
    assert parts[1..][1..] == [Decimal(id.iterationIndex), Decimal(id.attemptGroup)];
    assert parts[1..][1..][1..] == [Decimal(id.attemptGroup)];
    assert Texts.Join(parts, [SEPARATOR]) == Material(id) by {
      hide Decimal;
      JoinFour(id.runId, id.nodeId, Decimal(id.iterationIndex), Decimal(id.attemptGroup));
    }
    Texts.JoinSplits(parts, SEPARATOR);
  }

  lemma JoinFour(a: string, b: string, c: string, d: string)
    ensures Texts.Join([a, b, c, d], [SEPARATOR]) == a + [SEPARATOR] + (b + [SEPARATOR] + (c + [SEPARATOR] + d))
  {
    assert [a, b, c, d][1..] == [b, c, d] && [b, c, d][1..] == [c, d] && [c, d][1..] == [d];
    assert Texts.Join([c, d], [SEPARATOR]) == c + [SEPARATOR] + d;
    assert Texts.Join([b, c, d], [SEPARATOR]) == b + [SEPARATOR] + (c + [SEPARATOR] + d);
  }

  /** Without a run, without a node or with a NUL in either there is no key. */
  lemma NoKeyExactly(id: StepIdentity)
    ensures StepIdempotencyKey(id).None? <==>
      id.runId == "" || id.nodeId == "" || SEPARATOR in id.runId || SEPARATOR in id.nodeId
  {
  }
}
