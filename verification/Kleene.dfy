/** What the three-valued evaluator promises: a definite verdict on partial knowledge
    survives everything that can still be learned, and the list folds are the lattice
    operations they look like. */
module Kleene {
  import opened Model
  import opened StateStore
  import opened Rules

  /** `later` knows everything `earlier` knows, and possibly more. */
  ghost predicate Extends(earlier: Store, later: Store) {
    forall key <- earlier.Keys :: key in later && later[key] == earlier[key]
  }

  /** Every leaf reads a capability that has been reported in the leaf's own shape. */
  ghost predicate Grounded(c: Condition, store: Store)
    decreases c
  {
    match c
    case Always => true
    case Not(inner) => Grounded(inner, store)
    case And(parts) => forall p <- parts :: Grounded(p, store)
    case Or(parts) => forall p <- parts :: Grounded(p, store)
    case BoolEquals(device, kind, _) => BoolValue(store, device, kind).Some?
    case Compare(device, kind, _, _) => NumberValue(store, device, kind).Some?
    case ColorEquals(device, _, _, _) =>
      var color := Get(store, device, CapabilityKind.Color);
      color.Some? && color.value.Color?
  }

  /** The ordinary two-valued reading of a condition, by quantifiers instead of folds. */
  ghost predicate Holds(c: Condition, store: Store)
    decreases c
  {
    match c
    case Always => true
    case Not(inner) => !Holds(inner, store)
    case And(parts) => forall p <- parts :: Holds(p, store)
    case Or(parts) => exists p <- parts :: Holds(p, store)
    case BoolEquals(device, kind, value) => BoolValue(store, device, kind) == Some(value)
    case Compare(device, kind, op, bound) =>
      var v := NumberValue(store, device, kind);
      v.Some? && op.Test(v.value, bound)
    case ColorEquals(device, r, g, b) =>
      Get(store, device, CapabilityKind.Color) == Some(CapabilityState.Color(r, g, b))
  }

  lemma {:induction false} AndVerdict(acc: Truth, parts: seq<Condition>, store: Store)
    ensures Condition.FoldAnd(acc, parts, store) == False <==>
            acc == False || exists p <- parts :: p.Eval(store) == False
    ensures Condition.FoldAnd(acc, parts, store) == True <==>
            acc == True && forall p <- parts :: p.Eval(store) == True
    decreases |parts|
  {
    if parts != [] {
      AndVerdict(acc.And(parts[0].Eval(store)), parts[1..], store);
      assert parts == [parts[0]] + parts[1..] && parts[0] in parts;
    }
  }

  lemma {:induction false} OrVerdict(acc: Truth, parts: seq<Condition>, store: Store)
    ensures Condition.FoldOr(acc, parts, store) == True <==>
            acc == True || exists p <- parts :: p.Eval(store) == True
    ensures Condition.FoldOr(acc, parts, store) == False <==>
            acc == False && forall p <- parts :: p.Eval(store) == False
    decreases |parts|
  {
    if parts != [] {
      OrVerdict(acc.Or(parts[0].Eval(store)), parts[1..], store);
      assert parts == [parts[0]] + parts[1..] && parts[0] in parts;
    }
  }

  /** A definite verdict never changes as more capabilities are reported. */
  lemma {:induction false} DefiniteVerdictsPersist(c: Condition, earlier: Store, later: Store)
    requires Extends(earlier, later) && c.Eval(earlier) != Unknown
    ensures c.Eval(later) == c.Eval(earlier)
    decreases c
  {
    match c
    case Not(inner) => DefiniteVerdictsPersist(inner, earlier, later);
    case And(parts) =>
      AndVerdict(True, parts, earlier);
      AndVerdict(True, parts, later);
      forall p <- parts | p.Eval(earlier) != Unknown ensures p.Eval(later) == p.Eval(earlier) {
        DefiniteVerdictsPersist(p, earlier, later);
      }
    case Or(parts) =>
      OrVerdict(False, parts, earlier);
      OrVerdict(False, parts, later);
      forall p <- parts | p.Eval(earlier) != Unknown ensures p.Eval(later) == p.Eval(earlier) {
        DefiniteVerdictsPersist(p, earlier, later);
      }
    case _ =>
  }

  /** On full knowledge the evaluator is classical logic: never `Unknown`, never wrong. */
  lemma {:induction false} GroundedIsClassical(c: Condition, store: Store)
    requires Grounded(c, store)
    ensures c.Eval(store) == Truth.FromBool(Holds(c, store))
    decreases c
  {
    match c
    case Not(inner) => GroundedIsClassical(inner, store);
    case And(parts) =>
      AndVerdict(True, parts, store);
      forall p <- parts ensures p.Eval(store) == Truth.FromBool(Holds(p, store)) {
        GroundedIsClassical(p, store);
      }
      if !Holds(c, store) {
        var p :| p in parts && !Holds(p, store);
        assert p.Eval(store) == False;
      }
    case Or(parts) =>
      OrVerdict(False, parts, store);
      forall p <- parts ensures p.Eval(store) == Truth.FromBool(Holds(p, store)) {
        GroundedIsClassical(p, store);
      }
      if Holds(c, store) {
        var p :| p in parts && Holds(p, store);
        assert p.Eval(store) == True;
      }
    case _ =>
  }

  /** Kleene soundness: a rule that fires on partial knowledge would fire under every
      completion of it, and a definite refusal would be a refusal under every completion. */
  lemma KleeneSound(c: Condition, store: Store, completion: Store)
    requires Extends(store, completion) && Grounded(c, completion)
    ensures c.Eval(store) == True ==> Holds(c, completion)
    ensures c.Eval(store) == False ==> !Holds(c, completion)
  {
    GroundedIsClassical(c, completion);
    if c.Eval(store) != Unknown {
      DefiniteVerdictsPersist(c, store, completion);
    }
  }

  /** The converse fails: `x or not x` is true under every completion, yet `Unknown`
      until `x` is reported. */
  lemma KleeneIncomplete(device: DeviceId, completion: Store)
    ensures var x := BoolEquals(device, CapabilityKind.Switch, true);
      var c := Condition.Or([x, Condition.Not(x)]);
      c.Eval(map[]) == Unknown && (Grounded(c, completion) ==> Holds(c, completion))
  {
    var x := BoolEquals(device, CapabilityKind.Switch, true);
    var parts := [x, Condition.Not(x)];
    OrVerdict(False, parts, map[]);
    assert parts[0].Eval(map[]) == Unknown && parts[1].Eval(map[]) == Unknown;
    assert Condition.FoldOr(False, parts, map[]) == Unknown;
    if Grounded(Condition.Or(parts), completion) {
      assert parts[0] in parts && parts[1] in parts;
      assert Holds(parts[0], completion) || Holds(parts[1], completion);
    }
  }

  /** The verdict of a list depends only on which conditions occur in it. */
  lemma ListOrderIrrelevant(parts: seq<Condition>, other: seq<Condition>, store: Store)
    requires multiset(parts) == multiset(other)
    ensures Condition.And(parts).Eval(store) == Condition.And(other).Eval(store)
    ensures Condition.Or(parts).Eval(store) == Condition.Or(other).Eval(store)
  {
    forall p ensures p in parts <==> p in other {
      assert p in parts <==> p in multiset(parts);
      assert p in other <==> p in multiset(other);
    }
    AndVerdict(True, parts, store);
    AndVerdict(True, other, store);
    OrVerdict(False, parts, store);
    OrVerdict(False, other, store);
  }

  function Negated(parts: seq<Condition>): seq<Condition> {
    if parts == [] then [] else [Condition.Not(parts[0])] + Negated(parts[1..])
  }

  lemma {:induction false} FoldsAreDual(acc: Truth, parts: seq<Condition>, store: Store)
    ensures Condition.FoldAnd(acc, parts, store).Not() == Condition.FoldOr(acc.Not(), Negated(parts), store)
    ensures Condition.FoldOr(acc, parts, store).Not() == Condition.FoldAnd(acc.Not(), Negated(parts), store)
    decreases |parts|
  {
    if parts != [] {
      var verdict := parts[0].Eval(store);
      assert Negated(parts)[0].Eval(store) == verdict.Not() && Negated(parts)[1..] == Negated(parts[1..]);
      FoldsAreDual(acc.And(verdict), parts[1..], store);
      FoldsAreDual(acc.Or(verdict), parts[1..], store);
    }
  }

  /** De Morgan's laws over lists of any length, `Unknown` included. */
  lemma DeMorgan(parts: seq<Condition>, store: Store)
    ensures Condition.Not(Condition.And(parts)).Eval(store) == Condition.Or(Negated(parts)).Eval(store)
    ensures Condition.Not(Condition.Or(parts)).Eval(store) == Condition.And(Negated(parts)).Eval(store)
  {
    FoldsAreDual(True, parts, store);
    FoldsAreDual(False, parts, store);
  }
}
