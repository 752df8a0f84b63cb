/**
 * Whole runs of the engine: any interleaving of assignments and reads shows exactly
 * the values that would be seen if nothing were ever cached.
 */
module Sessions {
  import opened Config
  import opened Values
  import opened Meaning
  import opened Invalidation
  import opened Engine

  datatype Op =
    | SetSym(s: SymId, value: UserVal)
    | UnsetSym(s: SymId)
    | SetChoice(c: ChoiceId, value: UserVal)
    | UnsetChoice(c: ChoiceId)
    | Look(k: Key)

  predicate OpOk(K: Config, op: Op) {
    match op
    case SetSym(s, _) => SymOk(K, s)
    case UnsetSym(s) => SymOk(K, s)
    case SetChoice(c, _) => c < |K.choices|
    case UnsetChoice(c) => c < |K.choices|
    case Look(k) => KeyOk(K, k)
  }

  function After(K: Config, U: Users, op: Op): Users
    requires OpOk(K, op)
  {
    match op
    case SetSym(s, v) => AfterSet(K, U, s, v)
    case UnsetSym(s) => AfterUnset(U, s)
    case SetChoice(c, v) => AfterSetMode(K, U, c, v)
    case UnsetChoice(c) => AfterUnsetChoice(U, c)
    case Look(_) => U
  }

  lemma AfterOk(K: Config, U: Users, op: Op)
    requires ConfigOk(K) && UserStateOk(K, U) && OpOk(K, op)
    ensures UserStateOk(K, After(K, U, op))
  {
    match op
    case SetSym(s, v) => SetKeepsStateOk(K, U, s, v);
    case UnsetSym(s) => UnsetChanges(K, U, s);
    case SetChoice(c, v) => ModeChanges(K, U, c, v);
    case UnsetChoice(c) => UnsetModeChanges(K, U, c);
    case Look(_) =>
  }

  /** What is seen without any cache: every look computes its value from scratch. */
  ghost function Seen(K: Config, rank: Key -> nat, U: Users, ops: seq<Op>): seq<Val>
    requires ConfigOk(K) && Ranked(K, rank) && UserStateOk(K, U)
    requires forall j :: 0 <= j < |ops| ==> OpOk(K, ops[j])
    decreases |ops|
  {
    if ops == [] then []
    else
      AfterOk(K, U, ops[0]);
      (if ops[0].Look? then [Value(K, rank, U, ops[0].k)] else []) + Seen(K, rank, After(K, U, ops[0]), ops[1..])
  }

  method Step(k: Kconfig, op: Op) returns (seen: seq<Val>)
    requires k.Valid() && OpOk(k.K, op)
    modifies k
    ensures k.Valid() && k.users == After(k.K, old(k.users), op)
    ensures seen == if op.Look? then [Value(k.K, k.rank, old(k.users), op.k)] else []
  {
    seen := [];
    match op {
      case SetSym(s, v) => var _ := k.SetValue(s, v);
      case UnsetSym(s) => k.UnsetValue(s);
      case SetChoice(c, v) => var _ := k.SetMode(c, v);
      case UnsetChoice(c) => k.UnsetMode(c);
      case Look(key) => var v := k.Read(key); seen := [v];
    }
  }

  method Run(k: Kconfig, ops: seq<Op>) returns (seen: seq<Val>)
    requires k.Valid() && forall j :: 0 <= j < |ops| ==> OpOk(k.K, ops[j])
    modifies k
    ensures k.Valid() && seen == Seen(k.K, k.rank, old(k.users), ops)
  {
    seen := [];
    for n := 0 to |ops|
      invariant k.Valid()
      invariant Seen(k.K, k.rank, old(k.users), ops) == seen + Seen(k.K, k.rank, k.users, ops[n..])
    {
      var now := Step(k, ops[n]);
      assert ops[n..][1..] == ops[n + 1..];
      seen := seen + now;
    }
  }
}
