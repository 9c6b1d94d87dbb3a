/**
 * The failure classifier of the retry engine: exception types and their
 * base-type hierarchy, the matching rule that `Catch` registers, and the
 * OR over all registered rules that decides whether a failure is retried.
 */
module Classification {
  import opened Wrappers

  /** An exception type, identified by number. */
  type TypeId = nat

  /**
   * The runtime type system: the direct base type of every exception type
   * that has one. Every type is numbered above its base type, which is how
   * the model keeps the hierarchy acyclic, as the runtime's is; any finite
   * acyclic hierarchy can be numbered this way.
   */
  type Hierarchy = m: map<TypeId, TypeId> | forall t :: t in m ==> m[t] < t

  /** `t` is a strict descendant of `c`: `c` is reached by walking base types up from `t`. */
  predicate IsSubclassOf(h: Hierarchy, t: TypeId, c: TypeId)
    decreases t
  {
    t in h && (h[t] == c || IsSubclassOf(h, h[t], c))
  }

  /** An exception object: its runtime type and the values of its properties, by name. */
  datatype Exn = Exn(kind: TypeId, properties: map<string, string>)

  /** The type test of a rule for `exceptionType`: the exact type, or a strict descendant when derived types are caught. */
  predicate TypeMatches(h: Hierarchy, exceptionType: TypeId, catchDerivedExceptions: bool, ex: Exn)
  {
    ex.kind == exceptionType || (catchDerivedExceptions && IsSubclassOf(h, ex.kind, exceptionType))
  }

  /**
   * The full predicate of one rule: the type test first, and only when it
   * succeeds the payload predicate, where an absent predicate counts as a match.
   */
  predicate RuleMatches(h: Hierarchy, exceptionType: TypeId, catchDerivedExceptions: bool,
                        exceptionPredicate: Option<Exn -> bool>, ex: Exn)
  {
    if !TypeMatches(h, exceptionType, catchDerivedExceptions, ex) then false
    else match exceptionPredicate
      case None => true
      case Some(p) => p(ex)
  }

  /** The closure that `Catch` stores in the engine's list of predicates. */
  function CreateFullExceptionPredicate(h: Hierarchy, exceptionType: TypeId, catchDerivedExceptions: bool,
                                        exceptionPredicate: Option<Exn -> bool>): Exn -> bool
  {
    ex => RuleMatches(h, exceptionType, catchDerivedExceptions, exceptionPredicate, ex)
  }

  /** Whether any of the predicates accepts `ex`, tried in list order with short-circuit. */
  function Any(predicates: seq<Exn -> bool>, ex: Exn): bool
  {
    |predicates| > 0 && (predicates[0](ex) || Any(predicates[1..], ex))
  }

  // ----- the type hierarchy -----

  /** A base type is always numbered below its descendants. */
  lemma {:induction false} SubclassIsBelow(h: Hierarchy, t: TypeId, c: TypeId)
    requires IsSubclassOf(h, t, c)
    ensures c < t
  {
    if h[t] != c {
      SubclassIsBelow(h, h[t], c);
    }
  }

  /** Derivation is strict and one-way: no type derives from itself, and no two types derive from each other. */
  lemma SubclassIsAcyclic(h: Hierarchy, t: TypeId, c: TypeId)
    ensures !IsSubclassOf(h, t, t)
    ensures IsSubclassOf(h, t, c) ==> !IsSubclassOf(h, c, t)
  {
    if IsSubclassOf(h, t, t) {
      SubclassIsBelow(h, t, t);
    }
    if IsSubclassOf(h, t, c) && IsSubclassOf(h, c, t) {
      SubclassIsBelow(h, t, c);
      SubclassIsBelow(h, c, t);
    }
  }

  /** A descendant of a descendant is a descendant. */
  lemma {:induction false} SubclassIsTransitive(h: Hierarchy, a: TypeId, b: TypeId, c: TypeId)
    requires IsSubclassOf(h, a, b) && IsSubclassOf(h, b, c)
    ensures IsSubclassOf(h, a, c)
  {
    if h[a] != b {
      SubclassIsTransitive(h, h[a], b, c);
    }
  }

  // ----- one rule -----

  /**
   * A rule that does not catch derived exceptions matches only its own type,
   * never a strict descendant, whatever its payload predicate; without one it
   * matches every exception of its own type.
   */
  lemma ExactRuleMatchesOnlyItsType(h: Hierarchy, exceptionType: TypeId, exceptionPredicate: Option<Exn -> bool>, ex: Exn)
    ensures CreateFullExceptionPredicate(h, exceptionType, false, exceptionPredicate)(ex) ==> ex.kind == exceptionType
    ensures IsSubclassOf(h, ex.kind, exceptionType) ==>
              !CreateFullExceptionPredicate(h, exceptionType, false, exceptionPredicate)(ex)
    ensures CreateFullExceptionPredicate(h, exceptionType, false, None)(ex) <==> ex.kind == exceptionType
  {
    SubclassIsAcyclic(h, ex.kind, exceptionType);
  }

  /**
   * A rule that catches derived exceptions matches only its own type and its
   * strict descendants, whatever its payload predicate; without one it
   * matches every exception of those types.
   */
  lemma DerivedRuleMatchesDescendants(h: Hierarchy, exceptionType: TypeId, exceptionPredicate: Option<Exn -> bool>, ex: Exn)
    ensures CreateFullExceptionPredicate(h, exceptionType, true, exceptionPredicate)(ex) ==>
              ex.kind == exceptionType || IsSubclassOf(h, ex.kind, exceptionType)
    ensures var rule := CreateFullExceptionPredicate(h, exceptionType, true, None);
            rule(ex) <==> ex.kind == exceptionType || IsSubclassOf(h, ex.kind, exceptionType)
  {
  }

  /** A rule never matches an exception whose type is a strict ancestor of the rule's type, whatever its options. */
  lemma RuleNeverMatchesAncestor(h: Hierarchy, exceptionType: TypeId, catchDerivedExceptions: bool,
                                 exceptionPredicate: Option<Exn -> bool>, ex: Exn)
    requires IsSubclassOf(h, exceptionType, ex.kind)
    ensures !CreateFullExceptionPredicate(h, exceptionType, catchDerivedExceptions, exceptionPredicate)(ex)
  {
    SubclassIsAcyclic(h, exceptionType, ex.kind);
  }

  /**
   * The payload predicate decides only once the type test has passed: a
   * failed type test rejects whatever the predicate would say, and after a
   * passed one an absent predicate accepts and a present one decides.
   */
  lemma PayloadPredicateGatesRule(h: Hierarchy, exceptionType: TypeId, catchDerivedExceptions: bool,
                                  p: Exn -> bool, ex: Exn)
    ensures !TypeMatches(h, exceptionType, catchDerivedExceptions, ex) ==>
              !CreateFullExceptionPredicate(h, exceptionType, catchDerivedExceptions, Some(p))(ex)
    ensures TypeMatches(h, exceptionType, catchDerivedExceptions, ex) ==>
              (CreateFullExceptionPredicate(h, exceptionType, catchDerivedExceptions, Some(p))(ex) <==> p(ex))
    ensures var rule := CreateFullExceptionPredicate(h, exceptionType, catchDerivedExceptions, None);
            rule(ex) <==> TypeMatches(h, exceptionType, catchDerivedExceptions, ex)
  {
  }

  // ----- the list of rules -----

  /** The ordered search accepts exactly when some predicate of the list accepts. */
  lemma {:induction false} AnyIffSome(predicates: seq<Exn -> bool>, ex: Exn)
    ensures Any(predicates, ex) <==> exists i :: 0 <= i < |predicates| && predicates[i](ex)
  {
    if |predicates| > 0 {
      AnyIffSome(predicates[1..], ex);
      if Any(predicates[1..], ex) {
        var i :| 0 <= i < |predicates[1..]| && predicates[1..][i](ex);
        assert predicates[i + 1](ex);
      }
      if exists i :: 0 <= i < |predicates| && predicates[i](ex) {
        var i :| 0 <= i < |predicates| && predicates[i](ex);
        if i > 0 {
          assert predicates[1..][i - 1](ex);
        }
      }
    }
  }

  /** An empty list of rules matches no failure. */
  lemma EmptyClassifierMatchesNothing(ex: Exn)
    ensures !Any([], ex)
  {
  }

  /** Appending a rule ORs it onto the classifier: no matched failure becomes unmatched. */
  lemma AddingRuleKeepsMatches(predicates: seq<Exn -> bool>, p: Exn -> bool, ex: Exn)
    ensures Any(predicates + [p], ex) <==> Any(predicates, ex) || p(ex)
  {
    AnyIffSome(predicates, ex);
    AnyIffSome(predicates + [p], ex);
    if Any(predicates, ex) {
      var i :| 0 <= i < |predicates| && predicates[i](ex);
      assert (predicates + [p])[i] == predicates[i];
    }
    if p(ex) {
      assert (predicates + [p])[|predicates|] == p;
    }
    if Any(predicates + [p], ex) {
      var i :| 0 <= i < |predicates + [p]| && (predicates + [p])[i](ex);
      if i < |predicates| {
        assert predicates[i] == (predicates + [p])[i];
      }
    }
  }

  /** Classification does not depend on rule order or repetition: lists with the same rules classify alike. */
  lemma MatchIgnoresOrder(a: seq<Exn -> bool>, b: seq<Exn -> bool>, ex: Exn)
    requires forall p :: p in a <==> p in b
    ensures Any(a, ex) == Any(b, ex)
  {
    AnyIffSome(a, ex);
    AnyIffSome(b, ex);
    if Any(a, ex) {
      var i :| 0 <= i < |a| && a[i](ex);
      assert a[i] in b;
      var j :| 0 <= j < |b| && b[j] == a[i];
    }
    if Any(b, ex) {
      var j :| 0 <= j < |b| && b[j](ex);
      assert b[j] in a;
      var i :| 0 <= i < |a| && a[i] == b[j];
    }
  }
}
