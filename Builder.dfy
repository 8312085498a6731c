/** The fluent TrustManagerBuilder: one piece of policy state, the current root composite
    `mgr`, which `or()` and `and()` replace by a new root wrapping the old tree, and to which
    every check-adding call appends leaves. Whether a Context was supplied decides whether the
    raw-resource and asset overloads may run.

    Reading certificate and keystore material is input/output plus cryptography outside this
    model: a loader parameter stands for "open the stream for this source and turn it into
    trust managers", and may fail. The Java overloads taking a File, a raw resource ID or an
    asset path become one `Source` parameter. Where the Java methods return the builder itself
    for chaining, `Or`, `And` and `DenyAll` return nothing and the loading methods return an
    `Outcome` that reports the exception the Java method would throw. */
module Builder {
  import opened TrustTree
  import opened CompositeManager

  /** Default certificate type of `allowCA`. */
  const X509: string := "X.509"
  /** Default keystore format of `selfSigned`. */
  const BKS: string := "BKS"

  /** Where certificate or keystore material comes from. */
  datatype Source = LocalFile(path: string) | RawResource(id: int) | Asset(path: string)

  /** Raw resources and assets are reached through the Context; local files are not. */
  predicate NeedsContext(src: Source) {
    src.RawResource? || src.Asset?
  }

  /** What reading trust material yields: the trust managers made from it, or the reason
      (I/O, certificate, keystore or algorithm exception) it could not be read. */
  datatype Load = Loaded(managers: seq<TrustManager>) | LoadFailed(reason: string)

  /** Reads a CA certificate of the given type from a source. */
  type CaLoader = (Source, string) -> Load
  /** Reads a keystore with the given password and format from a source. */
  type StoreLoader = (Source, seq<char>, string) -> Load

  /** The exceptions a builder call can end with: the missing-Context IllegalArgumentException,
      or the failure of reading trust material. */
  datatype BuildError = MissingContext | LoadError(reason: string)

  datatype Outcome = Pass | Fail(error: BuildError)

  /** How a check-adding call ends: missing Context first (before anything is read), then
      the loader's failure, otherwise success. */
  function Expected(guarded: bool, hasContext: bool, load: Load): (r: Outcome)
    ensures r == Fail(MissingContext) <==> guarded && !hasContext
    ensures r.Pass? <==> (!guarded || hasContext) && load.Loaded?
  {
    if guarded && !hasContext then Fail(MissingContext)
    else
      match load
      case Loaded(_) => Pass
      case LoadFailed(why) => Fail(LoadError(why))
  }

  /** The children a check-adding call appends: when the call succeeds, one check for each
      X509 manager of what was loaded, in load order; nothing when it fails. Either way every
      appended leaf is an X509 trust manager. */
  function Added(outcome: Outcome, load: Load): (r: seq<Tree>)
    ensures LeavesOf(r) == if outcome.Pass? && load.Loaded? then X509Managers(load.managers) else []
    ensures WellFormed(Composite(true, r))
  {
    if outcome.Pass? && load.Loaded? then
      X509ChecksLeaves(load.managers);
      X509Checks(load.managers)
    else
      []
  }

  class TrustManagerBuilder {
    /** The current root of the policy. */
    var mgr: CompositeTrustManager
    /** Whether a Context was supplied (the Java field `ctxt` is not null). */
    var hasContext: bool

    /** Every leaf of the policy is an X509 trust manager. */
    ghost predicate Valid()
      reads this, mgr
    {
      WellFormed(mgr.Snapshot())
    }

    /** The typical constructor: the policy starts as an empty match-all composite. */
    constructor (contextSupplied: bool)
      ensures Valid() && fresh(mgr)
      ensures hasContext == contextSupplied
      ensures mgr.Snapshot() == Composite(true, [])
    {
      mgr := new CompositeTrustManager.MatchAll([]);
      hasContext := contextSupplied;
      new;
      assert Leaves(mgr.Snapshot()) == [];
    }

    /** The empty constructor: the same empty policy, and no Context. */
    constructor WithoutContext()
      ensures Valid() && fresh(mgr)
      ensures !hasContext
      ensures mgr.Snapshot() == Composite(true, [])
    {
      mgr := new CompositeTrustManager.MatchAll([]);
      hasContext := false;
      new;
      assert Leaves(mgr.Snapshot()) == [];
    }

    /** The policy built so far: the current root itself, not a copy, so later check-adding
        calls, until the next `Or` or `And`, still change what an earlier `Build` returned. */
    method Build() returns (tm: CompositeTrustManager)
      ensures tm == mgr
    {
      tm := mgr;
    }

    /** The current root as the only element of a new array. */
    method BuildArray() returns (tms: array<CompositeTrustManager>)
      ensures fresh(tms)
      ensures tms.Length == 1 && tms[0] == mgr
    {
      var root := Build();
      tms := new CompositeTrustManager[1](_ => root);
    }

    /** Later checks are OR'd with everything configured before: the new root is a match-any
        composite whose only child is the whole previous tree. */
    method Or()
      requires Valid()
      modifies this
      ensures Valid() && fresh(mgr)
      ensures mgr.Snapshot() == Composite(false, [old(mgr.Snapshot())])
      ensures Leaves(mgr.Snapshot()) == old(Leaves(mgr.Snapshot()))
      ensures hasContext == old(hasContext)
    {
      var previous := mgr.Snapshot();
      RerootLeaves(false, previous);
      mgr := new CompositeTrustManager.MatchAny([previous]);
    }

    /** Later checks are AND'd with everything configured before: the new root is a match-all
        composite whose only child is the whole previous tree. */
    method And()
      requires Valid()
      modifies this
      ensures Valid() && fresh(mgr)
      ensures mgr.Snapshot() == Composite(true, [old(mgr.Snapshot())])
      ensures Leaves(mgr.Snapshot()) == old(Leaves(mgr.Snapshot()))
      ensures hasContext == old(hasContext)
    {
      var previous := mgr.Snapshot();
      RerootLeaves(true, previous);
      mgr := new CompositeTrustManager.MatchAll([previous]);
    }

    /** Appends one deny-all check as the last child of the current root. */
    method DenyAll()
      requires Valid()
      modifies mgr
      ensures Valid()
      ensures mgr.matchAll == old(mgr.matchAll)
      ensures mgr.children == old(mgr.children) + [Check(DenyAllManager)]
    {
      AddedChecksLeaves(mgr.matchAll, mgr.children, [Check(DenyAllManager)]);
      assert LeavesOf([Check(DenyAllManager)]) == [DenyAllManager] + LeavesOf([]);
      mgr.Add(DenyAllManager);
    }

    /** Appends, in input order, a check for every X509 trust manager of `ms` and skips the
        others; the mode and the existing children stay as they were. */
    method AddAll(ms: seq<TrustManager>)
      requires Valid()
      modifies mgr
      ensures Valid()
      ensures mgr.matchAll == old(mgr.matchAll)
      ensures mgr.children == old(mgr.children) + X509Checks(ms)
    {
      for i := 0 to |ms|
        invariant mgr.matchAll == old(mgr.matchAll)
        invariant mgr.children == old(mgr.children) + X509Checks(ms[..i])
      {
        assert ms[..i + 1][..i] == ms[..i];
        if IsX509(ms[i]) {
          mgr.Add(ms[i]);
        }
      }
      assert ms[..|ms|] == ms;
      X509ChecksLeaves(ms);
      AddedChecksLeaves(mgr.matchAll, old(mgr.children), X509Checks(ms));
    }

    /** Fails when no Context was supplied. */
    method CheckContext() returns (r: Outcome)
      ensures r.Pass? <==> hasContext
      ensures r.Fail? ==> r.error == MissingContext
    {
      r := if hasContext then Pass else Fail(MissingContext);
    }

    /** Appends the X509 checks of what was loaded, or leaves the tree alone when loading
        failed. */
    method AddLoaded(load: Load) returns (r: Outcome)
      requires Valid()
      modifies mgr
      ensures Valid()
      ensures r == Expected(false, hasContext, load)
      ensures mgr.matchAll == old(mgr.matchAll)
      ensures mgr.children == old(mgr.children) + Added(r, load)
    {
      match load
      case LoadFailed(why) =>
        r := Fail(LoadError(why));
      case Loaded(ms) =>
        AddAll(ms);
        r := Pass;
    }

    /** Adds the system's default trust managers, as the platform's trust manager factory
        (`platform`) yields them. */
    method UseDefault(platform: Load) returns (r: Outcome)
      requires Valid()
      modifies mgr
      ensures Valid()
      ensures r == Expected(false, hasContext, platform)
      ensures mgr.matchAll == old(mgr.matchAll)
      ensures mgr.children == old(mgr.children) + Added(r, platform)
    {
      r := AddLoaded(platform);
    }

    /** Gates reading from `src` on the Context, then adds what `load` read. */
    method AddFrom(src: Source, load: Load) returns (r: Outcome)
      requires Valid()
      modifies mgr
      ensures Valid()
      ensures r == Expected(NeedsContext(src), hasContext, load)
      ensures mgr.matchAll == old(mgr.matchAll)
      ensures mgr.children == old(mgr.children) + Added(r, load)
    {
      if NeedsContext(src) {
        r := CheckContext();
        if r.Fail? {
          return;
        }
      }
      r := AddLoaded(load);
    }

    /** Allows a certificate authority, from a CA certificate of type `certType` in `src`.
        Without a Context, a raw resource or asset fails before anything is read and the
        tree is unchanged. */
    method AllowCA(src: Source, certType: string, loadCA: CaLoader) returns (r: Outcome)
      requires Valid()
      modifies mgr
      ensures Valid()
      ensures r == Expected(NeedsContext(src), hasContext, loadCA(src, certType))
      ensures mgr.matchAll == old(mgr.matchAll)
      ensures mgr.children == old(mgr.children) + Added(r, loadCA(src, certType))
    {
      r := AddFrom(src, loadCA(src, certType));
    }

    /** `AllowCA` with the certificate assumed to be X.509. */
    method AllowCAX509(src: Source, loadCA: CaLoader) returns (r: Outcome)
      requires Valid()
      modifies mgr
      ensures Valid()
      ensures r == Expected(NeedsContext(src), hasContext, loadCA(src, "X.509"))
      ensures mgr.matchAll == old(mgr.matchAll)
      ensures mgr.children == old(mgr.children) + Added(r, loadCA(src, "X.509"))
    {
      r := AllowCA(src, X509, loadCA);
    }

    /** Allows a self-signed certificate, from a keystore of the given format in `src`.
        Without a Context, a raw resource or asset fails before anything is read and the
        tree is unchanged. */
    method SelfSigned(src: Source, password: seq<char>, format: string, loadStore: StoreLoader)
      returns (r: Outcome)
      requires Valid()
      modifies mgr
      ensures Valid()
      ensures r == Expected(NeedsContext(src), hasContext, loadStore(src, password, format))
      ensures mgr.matchAll == old(mgr.matchAll)
      ensures mgr.children == old(mgr.children) + Added(r, loadStore(src, password, format))
    {
      r := AddFrom(src, loadStore(src, password, format));
    }

    /** `SelfSigned` with the keystore assumed to be in BKS format. */
    method SelfSignedBKS(src: Source, password: seq<char>, loadStore: StoreLoader)
      returns (r: Outcome)
      requires Valid()
      modifies mgr
      ensures Valid()
      ensures r == Expected(NeedsContext(src), hasContext, loadStore(src, password, "BKS"))
      ensures mgr.matchAll == old(mgr.matchAll)
      ensures mgr.children == old(mgr.children) + Added(r, loadStore(src, password, "BKS"))
    {
      r := SelfSigned(src, password, BKS, loadStore);
    }
  }

  /** The policy the documentation of `or()` suggests for accepting either of two self-signed
      certificates, `selfSigned(first).or().selfSigned(second)`, on a builder without Context
      reading two keystore files. It accepts a chain exactly when every check from the first
      keystore does or some check from the second one does. */
  method EitherSelfSigned(first: string, second: string, password: seq<char>, loadStore: StoreLoader)
    returns (r: Outcome, policy: CompositeTrustManager)
    ensures r.Pass? <==>
      loadStore(LocalFile(first), password, BKS).Loaded? && loadStore(LocalFile(second), password, BKS).Loaded?
    ensures r.Pass? ==> forall verdict: Verdict ::
      Accepts(policy.Snapshot(), verdict) <==>
        (AllAccept(X509Checks(loadStore(LocalFile(first), password, BKS).managers), verdict) ||
         AnyAccepts(X509Checks(loadStore(LocalFile(second), password, BKS).managers), verdict))
  {
    var b := new TrustManagerBuilder.WithoutContext();
    r := b.SelfSignedBKS(LocalFile(first), password, loadStore);
    if r.Pass? {
      ghost var xs := X509Checks(loadStore(LocalFile(first), password, BKS).managers);
      assert b.mgr.children == [] + xs;
      ghost var x := b.mgr.Snapshot();
      assert x == Composite(true, xs);
      b.Or();
      r := b.SelfSignedBKS(LocalFile(second), password, loadStore);
      if r.Pass? {
        ghost var ys := X509Checks(loadStore(LocalFile(second), password, BKS).managers);
        assert b.mgr.Snapshot() == Composite(false, [x] + ys);
        forall verdict: Verdict
          ensures Accepts(b.mgr.Snapshot(), verdict) <==> Accepts(x, verdict) || AnyAccepts(ys, verdict)
        {
          AnyAcceptsAppend([x], ys, verdict);
        }
      }
    }
    policy := b.Build();
  }
}
