/** The root of a policy under construction. The builder only ever creates composites and adds
    X509 trust managers to the current one; this class holds exactly that much of a composite
    trust manager: its match-all/match-any mode and its list of children. Every child is a
    finished value, because the builder never touches a composite again once a newer root
    wraps it. How a composite checks a certificate chain at run time is not part of this
    model; its logical meaning is `TrustTree.Accepts`. */
module CompositeManager {
  import opened TrustTree

  class CompositeTrustManager {
    var matchAll: bool
    var children: seq<Tree>

    /** The policy this composite stands for right now. */
    function Snapshot(): Tree
      reads this
    {
      Composite(matchAll, children)
    }

    /** A match-all composite holding `initial`, in order. */
    constructor MatchAll(initial: seq<Tree>)
      ensures matchAll && children == initial
    {
      matchAll := true;
      children := initial;
    }

    /** A match-any composite holding `initial`, in order. */
    constructor MatchAny(initial: seq<Tree>)
      ensures !matchAll && children == initial
    {
      matchAll := false;
      children := initial;
    }

    /** Appends one X509 trust manager as the last child; the mode and the earlier children
        stay as they were. */
    method Add(m: TrustManager)
      requires IsX509(m)
      modifies this
      ensures matchAll == old(matchAll)
      ensures children == old(children) + [Check(m)]
    {
      children := children + [Check(m)];
    }
  }
}
