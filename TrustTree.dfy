/** The trust policy a TrustManagerBuilder assembles: a tree of trust managers joined by
    match-all (AND) and match-any (OR) composites, together with the logical meaning that the
    builder's documentation gives to that tree. Leaf verdicts are left uninterpreted: a
    `Verdict` says, for the one certificate chain under consideration, which managers accept
    it. Certificate parsing and path validation happen inside those managers and are not
    modelled. */
module TrustTree {

  /** A trust manager as the builder sees it: the deny-all manager the builder creates itself,
      or a manager produced elsewhere (the platform's trust manager factory, a CA certificate
      loader, a keystore loader), which may or may not be an X509 trust manager. `id` tells
      such managers apart. */
  datatype TrustManager = DenyAllManager | External(id: nat, x509: bool)

  /** Whether a manager is an X509 trust manager, the only kind a composite can hold. */
  predicate IsX509(m: TrustManager) {
    m.DenyAllManager? || m.x509
  }

  /** A node of the policy: one trust manager, or a composite that either requires every child
      to accept (`matchAll`) or any one child to accept. */
  datatype Tree = Check(manager: TrustManager) | Composite(matchAll: bool, children: seq<Tree>)

  /** The uninterpreted verdict of each leaf manager on one certificate chain. */
  type Verdict = TrustManager -> bool

  /** The deny-all manager rejects every certificate; any other leaf has the verdict given. */
  predicate LeafAccepts(m: TrustManager, verdict: Verdict) {
    match m
    case DenyAllManager => false
    case External(_, _) => verdict(m)
  }

  /** The AND/OR meaning of a policy tree. */
  predicate Accepts(t: Tree, verdict: Verdict)
    decreases t, 1
  {
    match t
    case Check(m) => LeafAccepts(m, verdict)
    case Composite(all, cs) => if all then AllAccept(cs, verdict) else AnyAccepts(cs, verdict)
  }

  /** Every tree of `cs` accepts (an empty list accepts). */
  predicate AllAccept(cs: seq<Tree>, verdict: Verdict)
    decreases cs, 0
  {
    cs == [] || (Accepts(cs[0], verdict) && AllAccept(cs[1..], verdict))
  }

  /** Some tree of `cs` accepts (an empty list does not). */
  predicate AnyAccepts(cs: seq<Tree>, verdict: Verdict)
    decreases cs, 0
  {
    cs != [] && (Accepts(cs[0], verdict) || AnyAccepts(cs[1..], verdict))
  }

  /** The leaf managers of a tree, left to right. */
  function Leaves(t: Tree): seq<TrustManager>
    decreases t, 1
  {
    match t
    case Check(m) => [m]
    case Composite(_, cs) => LeavesOf(cs)
  }

  /** The leaf managers of a list of trees, left to right. */
  function LeavesOf(cs: seq<Tree>): seq<TrustManager>
    decreases cs, 0
  {
    if cs == [] then [] else Leaves(cs[0]) + LeavesOf(cs[1..])
  }

  /** A tree the builder can produce: every leaf is an X509 trust manager. */
  ghost predicate WellFormed(t: Tree) {
    forall m | m in Leaves(t) :: IsX509(m)
  }

  /** The checks `addAll` appends for the managers `ms`: one leaf per X509 trust manager, in the
      order of `ms`; other managers are skipped. Defined from the end of `ms`, the way the loop
      over `ms` extends its result. */
  function X509Checks(ms: seq<TrustManager>): (r: seq<Tree>)
    ensures |r| <= |ms|
    ensures forall t | t in r :: t.Check? && IsX509(t.manager) && t.manager in ms
  {
    if ms == [] then []
    else
      var last := ms[|ms| - 1];
      X509Checks(ms[..|ms| - 1]) + (if IsX509(last) then [Check(last)] else [])
  }

  // ---------------------------------------------------------------------------------------
  // The AND/OR meaning, stated against quantifiers

  /** A match-all list accepts exactly when every child accepts. */
  lemma {:induction false} AllAcceptMeaning(cs: seq<Tree>, verdict: Verdict)
    ensures AllAccept(cs, verdict) <==> forall i :: 0 <= i < |cs| ==> Accepts(cs[i], verdict)
  {
    if cs != [] {
      AllAcceptMeaning(cs[1..], verdict);
      assert forall i :: 1 <= i < |cs| ==> cs[i] == cs[1..][i - 1];
    }
  }

  /** A match-any list accepts exactly when some child accepts. */
  lemma {:induction false} AnyAcceptsMeaning(cs: seq<Tree>, verdict: Verdict)
    ensures AnyAccepts(cs, verdict) <==> exists i :: 0 <= i < |cs| && Accepts(cs[i], verdict)
  {
    if cs != [] {
      AnyAcceptsMeaning(cs[1..], verdict);
      if AnyAccepts(cs[1..], verdict) {
        var j :| 0 <= j < |cs[1..]| && Accepts(cs[1..][j], verdict);
        assert Accepts(cs[j + 1], verdict);
      }
      assert forall i :: 1 <= i < |cs| ==> cs[i] == cs[1..][i - 1];
    }
  }

  /** Absorption laws: one rejecting child makes a match-all composite reject, and one
      accepting child makes a match-any composite accept, whatever the other children say. */
  lemma ShortCircuit(cs: seq<Tree>, i: nat, verdict: Verdict)
    requires i < |cs|
    ensures !Accepts(cs[i], verdict) ==> !Accepts(Composite(true, cs), verdict)
    ensures Accepts(cs[i], verdict) ==> Accepts(Composite(false, cs), verdict)
  {
    AllAcceptMeaning(cs, verdict);
    AnyAcceptsMeaning(cs, verdict);
  }

  /** Appending to a match-all list conjoins, appending to a match-any list disjoins. */
  lemma {:induction false} AllAcceptAppend(cs: seq<Tree>, ys: seq<Tree>, verdict: Verdict)
    ensures AllAccept(cs + ys, verdict) == (AllAccept(cs, verdict) && AllAccept(ys, verdict))
  {
    if cs != [] {
      assert (cs + ys)[0] == cs[0];
      assert (cs + ys)[1..] == cs[1..] + ys;
      AllAcceptAppend(cs[1..], ys, verdict);
    } else {
      assert cs + ys == ys;
    }
  }

  lemma {:induction false} AnyAcceptsAppend(cs: seq<Tree>, ys: seq<Tree>, verdict: Verdict)
    ensures AnyAccepts(cs + ys, verdict) == (AnyAccepts(cs, verdict) || AnyAccepts(ys, verdict))
  {
    if cs != [] {
      assert (cs + ys)[0] == cs[0];
      assert (cs + ys)[1..] == cs[1..] + ys;
      AnyAcceptsAppend(cs[1..], ys, verdict);
    } else {
      assert cs + ys == ys;
    }
  }

  /** Checks added to a composite are AND'd with it when it matches all, OR'd when it
      matches any. */
  lemma AddedChecksMeaning(all: bool, cs: seq<Tree>, ys: seq<Tree>, verdict: Verdict)
    ensures Accepts(Composite(all, cs + ys), verdict) ==
      if all then Accepts(Composite(all, cs), verdict) && AllAccept(ys, verdict)
      else Accepts(Composite(all, cs), verdict) || AnyAccepts(ys, verdict)
  {
    AllAcceptAppend(cs, ys, verdict);
    AnyAcceptsAppend(cs, ys, verdict);
  }

  /** The policy X.or().Y: after `or()` wraps the previous tree `x` in a match-any composite,
      the checks `ys` added next are OR'd with everything configured before. */
  lemma OrThenChecks(x: Tree, ys: seq<Tree>, verdict: Verdict)
    ensures Accepts(Composite(false, [x] + ys), verdict) <==>
      Accepts(x, verdict) || exists i :: 0 <= i < |ys| && Accepts(ys[i], verdict)
  {
    AnyAcceptsAppend([x], ys, verdict);
    AnyAcceptsMeaning(ys, verdict);
  }

  /** The policy X.and().Y: the checks `ys` added after `and()` are AND'd with everything
      configured before. */
  lemma AndThenChecks(x: Tree, ys: seq<Tree>, verdict: Verdict)
    ensures Accepts(Composite(true, [x] + ys), verdict) <==>
      Accepts(x, verdict) && forall i :: 0 <= i < |ys| ==> Accepts(ys[i], verdict)
  {
    AllAcceptAppend([x], ys, verdict);
    AllAcceptMeaning(ys, verdict);
  }

  /** A deny-all leaf vetoes a match-all composite and adds nothing to a match-any one. */
  lemma DenyAllMeaning(all: bool, cs: seq<Tree>, verdict: Verdict)
    ensures all ==> !Accepts(Composite(all, cs + [Check(DenyAllManager)]), verdict)
    ensures !all ==> (Accepts(Composite(all, cs + [Check(DenyAllManager)]), verdict) <==>
                      Accepts(Composite(all, cs), verdict))
  {
    AddedChecksMeaning(all, cs, [Check(DenyAllManager)], verdict);
  }

  /** Under the AND/OR meaning, the initial empty match-all tree accepts every chain, and so
      does any policy that starts with `or()` on a fresh builder, whatever is added after it. */
  lemma LeadingOrAcceptsAll(ys: seq<Tree>, verdict: Verdict)
    ensures Accepts(Composite(true, []), verdict)
    ensures Accepts(Composite(false, [Composite(true, [])] + ys), verdict)
  {
    OrThenChecks(Composite(true, []), ys, verdict);
  }

  // ---------------------------------------------------------------------------------------
  // Leaves: what the builder adds only accumulates, in order

  lemma {:induction false} LeavesOfAppend(cs: seq<Tree>, ys: seq<Tree>)
    ensures LeavesOf(cs + ys) == LeavesOf(cs) + LeavesOf(ys)
  {
    if cs != [] {
      assert (cs + ys)[0] == cs[0];
      assert (cs + ys)[1..] == cs[1..] + ys;
      LeavesOfAppend(cs[1..], ys);
    } else {
      assert cs + ys == ys;
    }
  }

  /** Adding children to a composite appends their leaves after the existing ones, and keeps
      the tree well formed when the added children are. */
  lemma AddedChecksLeaves(all: bool, cs: seq<Tree>, ys: seq<Tree>)
    ensures Leaves(Composite(all, cs + ys)) == Leaves(Composite(all, cs)) + LeavesOf(ys)
    ensures WellFormed(Composite(all, cs)) && WellFormed(Composite(all, ys)) ==>
              WellFormed(Composite(all, cs + ys))
  {
    LeavesOfAppend(cs, ys);
  }

  /** Wrapping a tree in a new composite keeps its leaves and their order. */
  lemma RerootLeaves(all: bool, t: Tree)
    ensures Leaves(Composite(all, [t])) == Leaves(t)
    ensures WellFormed(t) ==> WellFormed(Composite(all, [t]))
  {
    assert LeavesOf([t]) == Leaves(t) + LeavesOf([t][1..]);
    assert [t][1..] == [];
  }

  /** The checks for a list of managers are the checks for its parts, in order. */
  lemma {:induction false} X509ChecksConcat(a: seq<TrustManager>, b: seq<TrustManager>)
    ensures X509Checks(a + b) == X509Checks(a) + X509Checks(b)
    decreases |b|
  {
    if b == [] {
      assert a + b == a;
    } else {
      var b' := b[..|b| - 1];
      assert (a + b)[..|a + b| - 1] == a + b';
      assert (a + b)[|a + b| - 1] == b[|b| - 1];
      X509ChecksConcat(a, b');
    }
  }

  /** Every X509 manager of `ms` gets its own check, so nothing acceptable is dropped. */
  lemma {:induction false} X509ChecksComplete(ms: seq<TrustManager>, i: nat)
    requires i < |ms| && IsX509(ms[i])
    ensures Check(ms[i]) in X509Checks(ms)
    decreases |ms|
  {
    var init := ms[..|ms| - 1];
    if i < |ms| - 1 {
      assert init[i] == ms[i];
      X509ChecksComplete(init, i);
    }
  }

  /** The X509 managers of `ms`, in order: a filter written from the front, independent of
      the loop-shaped `X509Checks`. */
  function X509Managers(ms: seq<TrustManager>): seq<TrustManager> {
    if ms == [] then []
    else (if IsX509(ms[0]) then [ms[0]] else []) + X509Managers(ms[1..])
  }

  /** The leaves `addAll` contributes are exactly the X509 managers of its input, in input
      order, so the tree stays well formed. */
  lemma {:induction false} X509ChecksLeaves(ms: seq<TrustManager>)
    ensures LeavesOf(X509Checks(ms)) == X509Managers(ms)
    ensures WellFormed(Composite(true, X509Checks(ms)))
    decreases |ms|
  {
    if ms != [] {
      var head, rest := ms[..1], ms[1..];
      assert ms == head + rest;
      X509ChecksConcat(head, rest);
      X509ChecksLeaves(rest);
      assert head[..0] == [];
      LeavesOfAppend(X509Checks(head), X509Checks(rest));
      if IsX509(ms[0]) {
        assert X509Checks(head) == [Check(ms[0])];
        assert LeavesOf([Check(ms[0])]) == [ms[0]] + LeavesOf([Check(ms[0])][1..]);
        assert [Check(ms[0])][1..] == [];
      } else {
        assert X509Checks(head) == [];
      }
    }
  }
}
