/** Which configured vendor a raw vendor name means (sync/vendor.go): ids bind to themselves,
    aliases to their vendor, and an alias claimed twice becomes a tombstone. */
module VendorScope {
  import opened Slugs
  import opened EntryMerge

  datatype Vendor = Vendor(vendorID: string, aliases: seq<string>)

  datatype Scope = Scope(canonicalIDs: set<string>, managedIDs: set<string>, aliases: map<string, string>)

  const PRESETS: set<string> := {"github-models", "cerebras", "modelscope", "openrouter"}

  function ID(v: Vendor): string {
    VendorSlug(v.vendorID)
  }

  /** `bindConfiguredVendorAlias`. */
  function Bind(out: map<string, string>, alias: string, canonical: string): map<string, string> {
    var a, c := VendorSlug(alias), VendorSlug(canonical);
    if a == "" || c == "" then out
    else if a in out && out[a] != c then out[a := ""]
    else out[a := c]
  }

  function BindAll(out: map<string, string>, aliases: seq<string>, canonical: string): map<string, string> {
    if aliases == [] then out
    else Bind(BindAll(out, aliases[..|aliases| - 1], canonical), aliases[|aliases| - 1], canonical)
  }

  function AddVendor(scope: Scope, v: Vendor): Scope {
    var id := ID(v);
    if id == "" then scope else
      var own := if VendorSlug(id) in PRESETS then {} else {id};
      Scope(scope.canonicalIDs + own, scope.managedIDs + own, BindAll(scope.aliases[id := id], v.aliases, id))
  }

  function ScopeOf(vendors: seq<Vendor>): Scope {
    if vendors == [] then Scope({}, {}, map[]) else AddVendor(ScopeOf(vendors[..|vendors| - 1]), vendors[|vendors| - 1])
  }

  method NewConfiguredVendorScope(vendors: seq<Vendor>) returns (scope: Scope)
    ensures scope == ScopeOf(vendors)
  {
    hide VendorSlug, Bind;
    scope := Scope({}, {}, map[]);
    for i := 0 to |vendors|
      invariant scope == ScopeOf(vendors[..i])
    {
      assert vendors[..i + 1][..i] == vendors[..i];
      var vendorID := VendorSlug(vendors[i].vendorID);
      if vendorID == "" { continue; }
      var aliases := scope.aliases[vendorID := vendorID];
      for j := 0 to |vendors[i].aliases|
        invariant aliases == BindAll(scope.aliases[vendorID := vendorID], vendors[i].aliases[..j], vendorID)
      {
        assert vendors[i].aliases[..j + 1][..j] == vendors[i].aliases[..j];
        aliases := Bind(aliases, vendors[i].aliases[j], vendorID);
      }
      assert vendors[i].aliases[..|vendors[i].aliases|] == vendors[i].aliases;
      if VendorSlug(vendorID) !in PRESETS {
        scope := scope.(canonicalIDs := scope.canonicalIDs + {vendorID}, managedIDs := scope.managedIDs + {vendorID});
      }
      scope := scope.(aliases := aliases);
    }
    assert vendors[..|vendors|] == vendors;
  }

  function ConfiguredVendorID(scope: Scope, raw: string): Option<string> {
    var id := VendorSlug(raw);
    if id in scope.aliases && scope.aliases[id] != "" then Some(scope.aliases[id]) else None
  }

  function CanonicalVendorID(scope: Scope, raw: string): Option<string> {
    var id := ConfiguredVendorID(scope, raw);
    if id.Some? && id.value in scope.canonicalIDs then id else None
  }

  // ---- Claims -----------------------------------------------------------------------------------

  predicate HasAlias(v: Vendor, slug: string) {
    exists a :: a in v.aliases && VendorSlug(a) == slug
  }

  /** The vendor goes by the slug, as id or alias. */
  predicate Claims(v: Vendor, slug: string) {
    ID(v) != "" && (slug == ID(v) || (slug != "" && HasAlias(v, slug)))
  }

  ghost function Claimants(vendors: seq<Vendor>, slug: string): set<string> {
    set v | v in vendors && Claims(v, slug) :: ID(v)
  }

  /** An alias of one vendor is the id of another. */
  ghost predicate Clash(v: Vendor, w: Vendor) {
    ID(v) != "" && ID(w) != "" && ID(v) != ID(w) && HasAlias(v, ID(w))
  }

  ghost predicate ClashFree(vendors: seq<Vendor>) {
    forall v, w | v in vendors && w in vendors :: !Clash(v, w)
  }

  /** Vendor ids on which the slug normaliser is a projection. */
  ghost predicate StableVendors(vendors: seq<Vendor>) {
    forall v | v in vendors :: Stable(Style.Vendor, v.vendorID)
  }

  function At(m: map<string, string>, slug: string): Option<string> {
    if slug in m then Some(m[slug]) else None
  }

  /** A binding meets what is there: nothing, itself, or a conflict. */
  function Meet(current: Option<string>, canonical: string): Option<string> {
    if current.Some? && current.value != canonical then Some("") else Some(canonical)
  }

  lemma {:induction false} BindAllAt(m: map<string, string>, aliases: seq<string>, canonical: string, slug: string)
    requires VendorSlug(canonical) == canonical != ""
    ensures At(BindAll(m, aliases, canonical), slug)
            == if slug != "" && (exists a :: a in aliases && VendorSlug(a) == slug) then Meet(At(m, slug), canonical)
                else At(m, slug)
    decreases |aliases|
  {
    hide VendorSlug;
    if aliases != [] {
      var init, last := aliases[..|aliases| - 1], aliases[|aliases| - 1];
      assert forall a :: a in aliases <==> a in init || a == last;
      BindAllAt(m, init, canonical, slug);
    }
  }

  lemma StableID(v: Vendor)
    requires Stable(Style.Vendor, v.vendorID)
    ensures VendorSlug(ID(v)) == ID(v)
  {
    VendorSlugIdempotentIff(v.vendorID);
  }

  /** What adding a vendor does to one slug. */
  lemma AddVendorAt(scope: Scope, v: Vendor, slug: string)
    requires Stable(Style.Vendor, v.vendorID)
    ensures At(AddVendor(scope, v).aliases, slug)
            == if slug == ID(v) != "" then Some(slug)
               else if Claims(v, slug) then Meet(At(scope.aliases, slug), ID(v))
               else At(scope.aliases, slug)
  {
    StableID(v);
    hide VendorSlug, Stable, BindAll;
    if ID(v) != "" {
      BindAllAt(scope.aliases[ID(v) := ID(v)], v.aliases, ID(v), slug);
    }
  }

  /** A slug with no claimant is unbound, with one it is bound to it, with more it is a tombstone. */
  ghost predicate Follows(bound: Option<string>, claimants: set<string>) {
    && "" !in claimants
    && (bound.None? <==> claimants == {})
    && (bound.Some? && bound.value != "" ==> claimants == {bound.value})
    && (bound == Some("") ==> forall c :: claimants != {c})
  }

  lemma ClaimantsSnoc(vendors: seq<Vendor>, slug: string)
    requires vendors != []
    ensures var init, last := vendors[..|vendors| - 1], vendors[|vendors| - 1];
            Claimants(vendors, slug) == Claimants(init, slug) + if Claims(last, slug) then {ID(last)} else {}
  {
    hide ID, Claims;
    var init, last := vendors[..|vendors| - 1], vendors[|vendors| - 1];
    assert forall v :: v in vendors <==> v in init || v == last;
  }

  /** Without clashes an id has one claimant. */
  lemma OwnIDOnly(vendors: seq<Vendor>, v: Vendor)
    requires v in vendors && ID(v) != "" && ClashFree(vendors)
    ensures Claimants(vendors, ID(v)) == {ID(v)}
  {
    hide ID, HasAlias;
    forall w | w in vendors && Claims(w, ID(v)) ensures ID(w) == ID(v) { assert !Clash(w, v); }
    assert Claims(v, ID(v));
  }

  lemma SingletonPart(s: set<string>, d: string)
    ensures s <= {d} ==> s == {} || s == {d}
  {
    if d in s { assert {d} <= s; }
  }

  lemma FollowsOneMore(bound: Option<string>, claimants: set<string>, c: string)
    requires Follows(bound, claimants) && c != ""
    ensures Follows(Meet(bound, c), claimants + {c})
  {
    var more := claimants + {c};
    assert c in more;
    forall d ensures more == {d} ==> claimants == {} || claimants == {d} {
      SingletonPart(claimants, d);
    }
    if bound.Some? && bound.value != "" && bound.value != c {
      assert bound.value in more;
    }
  }

  /** The binding of every slug is what its claimants make it. */
  lemma {:induction false} ScopeFollowsClaims(vendors: seq<Vendor>, slug: string)
    requires StableVendors(vendors) && ClashFree(vendors)
    ensures Follows(At(ScopeOf(vendors).aliases, slug), Claimants(vendors, slug))
    decreases |vendors|
  {
    hide ID, Stable, AddVendor, HasAlias, Meet, Follows, Clash;
    if vendors == [] {
      assert Claimants(vendors, slug) == {};
      FollowsNone();
    } else {
      var init, last := vendors[..|vendors| - 1], vendors[|vendors| - 1];
      assert forall v :: v in vendors <==> v in init || v == last;
      ScopeFollowsClaims(init, slug);
      ClaimantsSnoc(vendors, slug);
      AddVendorAt(ScopeOf(init), last, slug);
      if slug == ID(last) && slug != "" {
        OwnIDOnly(vendors, last);
        FollowsOwn(slug);
      } else if Claims(last, slug) {
        FollowsOneMore(At(ScopeOf(init).aliases, slug), Claimants(init, slug), ID(last));
      } else {
        assert Claimants(init, slug) + {} == Claimants(init, slug);
      }
    }
  }

  lemma FollowsNone()
    ensures Follows(None, {})
  {
  }

  lemma FollowsOwn(id: string)
    requires id != ""
    ensures Follows(Some(id), {id})
  {
  }

  lemma {:induction false} CanonicalIDsAre(vendors: seq<Vendor>, id: string)
    requires StableVendors(vendors)
    ensures var scope := ScopeOf(vendors);
            && scope.managedIDs == scope.canonicalIDs
            && (id in scope.canonicalIDs <==> id != "" && id !in PRESETS && exists v :: v in vendors && ID(v) == id)
    decreases |vendors|
  {
    hide ID, Stable, BindAll;
    if vendors != [] {
      var init, last := vendors[..|vendors| - 1], vendors[|vendors| - 1];
      assert forall v :: v in vendors <==> v in init || v == last;
      CanonicalIDsAre(init, id);
      StableID(last);
    }
  }

  // ---- The theorems -----------------------------------------------------------------------------

  /** Without clashes a name resolves exactly to its only claimant, however often it is claimed;
      and it resolves to a canonical id unless that vendor is a preset source. */
  lemma ResolvesIffOneClaimant(vendors: seq<Vendor>, raw: string, id: string)
    requires StableVendors(vendors) && ClashFree(vendors)
    ensures ConfiguredVendorID(ScopeOf(vendors), raw) == Some(id) <==> Claimants(vendors, VendorSlug(raw)) == {id}
    ensures CanonicalVendorID(ScopeOf(vendors), raw) == Some(id)
            <==> Claimants(vendors, VendorSlug(raw)) == {id} && id !in PRESETS
  {
    var slug := VendorSlug(raw);
    ScopeFollowsClaims(vendors, slug);
    CanonicalIDsAre(vendors, id);
    hide VendorSlug, Stable, ScopeOf, Claims, Clash, ID;
    if Claimants(vendors, slug) == {id} {
      assert id in Claimants(vendors, slug);
      assert exists v :: v in vendors && ID(v) == id;
    }
  }

  lemma SameClaimants(a: seq<Vendor>, b: seq<Vendor>, slug: string)
    requires forall v :: v in a <==> v in b
    ensures Claimants(a, slug) == Claimants(b, slug)
  {
    hide ID, Claims;
  }

  /** Resolution does not depend on the order in which the vendors are registered. */
  lemma ScopeIsOrderFree(a: seq<Vendor>, b: seq<Vendor>, raw: string)
    requires forall v :: v in a <==> v in b
    requires StableVendors(a) && ClashFree(a)
    ensures ConfiguredVendorID(ScopeOf(a), raw) == ConfiguredVendorID(ScopeOf(b), raw)
    ensures CanonicalVendorID(ScopeOf(a), raw) == CanonicalVendorID(ScopeOf(b), raw)
  {
    hide ConfiguredVendorID, CanonicalVendorID, Claimants, Clash, Stable, VendorSlug;
    SameClaimants(a, b, VendorSlug(raw));
    forall id ensures ConfiguredVendorID(ScopeOf(a), raw) == Some(id)
      <==> ConfiguredVendorID(ScopeOf(b), raw) == Some(id) {
      ResolvesIffOneClaimant(a, raw, id);
      ResolvesIffOneClaimant(b, raw, id);
    }
    forall id ensures CanonicalVendorID(ScopeOf(a), raw) == Some(id)
      <==> CanonicalVendorID(ScopeOf(b), raw) == Some(id) {
      ResolvesIffOneClaimant(a, raw, id);
      ResolvesIffOneClaimant(b, raw, id);
    }
    SameOption(ConfiguredVendorID(ScopeOf(a), raw), ConfiguredVendorID(ScopeOf(b), raw));
    SameOption(CanonicalVendorID(ScopeOf(a), raw), CanonicalVendorID(ScopeOf(b), raw));
  }

  lemma SameOption<T(!new)>(a: Option<T>, b: Option<T>)
    requires forall x :: a == Some(x) <==> b == Some(x)
    ensures a == b
  {
    if a.Some? { assert b == Some(a.value); }
  }

  /** Resolving a canonical id gives it back. */
  lemma CanonicalResolutionIsIdempotent(vendors: seq<Vendor>, raw: string)
    requires StableVendors(vendors) && ClashFree(vendors)
    ensures var scope := ScopeOf(vendors);
            var found := CanonicalVendorID(scope, raw);
            found.Some? ==> CanonicalVendorID(scope, found.value) == found
  {
    var scope := ScopeOf(vendors);
    if CanonicalVendorID(scope, raw).Some? {
      var id := CanonicalVendorID(scope, raw).value;
      ResolvesIffOneClaimant(vendors, raw, id);
      hide VendorSlug, Stable, ScopeOf, Clash, Claims, CanonicalVendorID;
      assert id in Claimants(vendors, VendorSlug(raw));
      var v :| v in vendors && ID(v) == id;
      StableID(v);
      OwnIDOnly(vendors, v);
      ResolvesIffOneClaimant(vendors, id, id);
    }
  }

  lemma Presets()
    ensures forall id :: id in PRESETS <==> id in ["github-models", "cerebras", "modelscope", "openrouter"]
  {
  }

  /** A vendor is managed exactly if it is configured and none of the four that only stand for a source. */
  lemma ManagedIff(vendors: seq<Vendor>, id: string)
    requires StableVendors(vendors)
    ensures id in ScopeOf(vendors).managedIDs
            <==> && id != "" && id !in ["github-models", "cerebras", "modelscope", "openrouter"]
                 && exists v :: v in vendors && VendorSlug(v.vendorID) == id
  {
    Presets();
    CanonicalIDsAre(vendors, id);
    hide VendorSlug, Stable, ScopeOf, PRESETS;
  }

  // ---- Clashes ----------------------------------------------------------------------------------

  lemma ScopeSnoc(vendors: seq<Vendor>, v: Vendor)
    ensures ScopeOf(vendors + [v]) == AddVendor(ScopeOf(vendors), v)
  {
    hide AddVendor;
    assert (vendors + [v])[..|vendors + [v]| - 1] == vendors;
  }

  /** If an alias of `v` is the id of `w`, whichever of the two is registered last decides. */
  lemma LastOneDecides(rest: seq<Vendor>, v: Vendor, w: Vendor)
    requires Stable(Style.Vendor, v.vendorID) && Stable(Style.Vendor, w.vendorID) && Clash(v, w)
    ensures ConfiguredVendorID(ScopeOf(rest + [v, w]), w.vendorID) == Some(ID(w))
    ensures ConfiguredVendorID(ScopeOf(rest + [w, v]), w.vendorID) == None
  {
    hide Stable, AddVendor, VendorSlug, HasAlias, ScopeOf;
    assert rest + [v, w] == (rest + [v]) + [w] && rest + [w, v] == (rest + [w]) + [v];
    BoundLast(rest + [v], w);
    BoundLast(rest, w);
    ScopeSnoc(rest + [w], v);
    AddVendorAt(ScopeOf(rest + [w]), v, ID(w));
  }

  lemma BoundLast(rest: seq<Vendor>, w: Vendor)
    requires Stable(Style.Vendor, w.vendorID) && ID(w) != ""
    ensures At(ScopeOf(rest + [w]).aliases, ID(w)) == Some(ID(w))
  {
    hide Stable, AddVendor, VendorSlug, HasAlias, ScopeOf;
    ScopeSnoc(rest, w);
    AddVendorAt(ScopeOf(rest), w, ID(w));
  }

  lemma StableWord(s: string)
    requires s != "" && forall i | 0 <= i < |s| :: 'a' <= s[i] <= 'z'
    ensures VendorSlug(s) == s && Stable(Style.Vendor, s)
  {
    WordIsFixed(Style.Vendor, s);
    VendorSlugIdempotentIff(s);
    hide Slug, Stable;
  }

  /** Two vendors, the first with the id of the second as an alias. */
  const ALPHA := Vendor.Vendor("alpha", ["beta"])

  const BETA := Vendor.Vendor("beta", [])

  lemma AlphaClaimsBeta()
    ensures Stable(Style.Vendor, ALPHA.vendorID) && Stable(Style.Vendor, BETA.vendorID)
    ensures ALPHA.vendorID == "alpha" && BETA.vendorID == "beta" && ID(BETA) == "beta" && Clash(ALPHA, BETA)
  {
    hide VendorSlug, Stable;
    StableWord("alpha");
    StableWord("beta");
    assert ALPHA.aliases == ["beta"];
    assert "alpha" != "beta" && "beta" != "";
    hide ALPHA, BETA;
  }

  lemma NothingBefore(v: Vendor, w: Vendor)
    ensures [] + [v, w] == [v, w]
  {
  }

  /** They clash: registered last, `beta` means itself; registered first, it means nobody. */
  lemma LaterIDWins()
    ensures Clash(ALPHA, BETA)
    ensures ConfiguredVendorID(ScopeOf([ALPHA, BETA]), "beta") == Some("beta")
    ensures ConfiguredVendorID(ScopeOf([BETA, ALPHA]), "beta") == None
  {
    AlphaClaimsBeta();
    hide *;
    NothingBefore(ALPHA, BETA);
    NothingBefore(BETA, ALPHA);
    LastOneDecides([], ALPHA, BETA);
  }

  ghost predicate SameResolution(a: seq<Vendor>, b: seq<Vendor>) {
    forall raw :: ConfiguredVendorID(ScopeOf(a), raw) == ConfiguredVendorID(ScopeOf(b), raw)
  }

  ghost predicate OrderFree(vendors: seq<Vendor>) {
    forall order: seq<Vendor> | multiset(order) == multiset(vendors) :: SameResolution(order, vendors)
  }

  /** The scope is independent of the order of registration exactly when no alias is another
      vendor's id. */
  lemma OrderFreeIffClashFree(vendors: seq<Vendor>)
    requires StableVendors(vendors)
    ensures OrderFree(vendors) <==> ClashFree(vendors)
  {
    hide Clash, Stable, SameResolution;
    if ClashFree(vendors) {
      forall order: seq<Vendor> | multiset(order) == multiset(vendors) ensures SameResolution(order, vendors) {
        PermutationResolvesAlike(vendors, order);
      }
    } else {
      var v, w :| v in vendors && w in vendors && Clash(v, w);
      ClashIsTwo(v, w);
      var rest := Without(vendors, v, w);
      ClashResolvesTwice(vendors, rest, v, w);
    }
  }

  lemma PermutationResolvesAlike(vendors: seq<Vendor>, order: seq<Vendor>)
    requires StableVendors(vendors) && ClashFree(vendors) && multiset(order) == multiset(vendors)
    ensures SameResolution(order, vendors)
  {
    hide Clash, Stable, ConfiguredVendorID, ScopeOf;
    assert forall v :: v in vendors <==> v in multiset(vendors);
    assert forall v :: v in order <==> v in multiset(order);
    forall raw ensures ConfiguredVendorID(ScopeOf(order), raw) == ConfiguredVendorID(ScopeOf(vendors), raw) {
      ScopeIsOrderFree(vendors, order, raw);
    }
  }

  lemma ClashResolvesTwice(vendors: seq<Vendor>, rest: seq<Vendor>, v: Vendor, w: Vendor)
    requires Stable(Style.Vendor, v.vendorID) && Stable(Style.Vendor, w.vendorID) && Clash(v, w)
    ensures !SameResolution(rest + [v, w], vendors) || !SameResolution(rest + [w, v], vendors)
  {
    hide Stable, ConfiguredVendorID, ScopeOf, Clash;
    LastOneDecides(rest, v, w);
  }

  lemma ClashIsTwo(v: Vendor, w: Vendor)
    requires Clash(v, w)
    ensures v != w
  {
  }

  lemma WithoutOne<T>(s: seq<T>, x: T) returns (rest: seq<T>)
    requires x in s
    ensures multiset(s) == multiset(rest) + multiset{x}
  {
    var i :| 0 <= i < |s| && s[i] == x;
    rest := s[..i] + s[i + 1..];
    assert s == s[..i] + [x] + s[i + 1..];
  }

  lemma Without(vendors: seq<Vendor>, v: Vendor, w: Vendor) returns (rest: seq<Vendor>)
    requires v in vendors && w in vendors && v != w
    ensures multiset(rest + [v, w]) == multiset(vendors) == multiset(rest + [w, v])
  {
    var some := WithoutOne(vendors, v);
    assert w in multiset(vendors);
    assert w in multiset(some);
    rest := WithoutOne(some, w);
  }
}
