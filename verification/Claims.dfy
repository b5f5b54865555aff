/**
 The token response: the session's claims with the hook's groups and tenant
 merged into both tokens.
 */
module Claims {
  import opened Collections
  import opened HookTypes

  /** A claim value: text, a list of names, or anything else the session carries. */
  datatype Value = Text(text: string) | Names(names: seq<string>) | Foreign(id: int)

  type ClaimSet = map<string, Value>

  /** nil maps and missing sessions are told apart from empty ones. */
  datatype IdClaims = IdClaims(extra: Option<ClaimSet>)
  datatype DefaultSession = DefaultSession(claims: Option<IdClaims>)
  datatype Session = Session(extra: Option<ClaimSet>, login: Option<DefaultSession>)
  datatype Response = Response(access: ClaimSet, id: ClaimSet)

  function OrEmpty(c: Option<ClaimSet>): ClaimSet {
    if c.Some? then c.value else map[]
  }

  function AccessClaims(s: Option<Session>): ClaimSet {
    if s.None? then map[] else OrEmpty(s.value.extra)
  }

  function IdTokenClaims(s: Option<Session>): ClaimSet {
    if s.None? || s.value.login.None? || s.value.login.value.claims.None? then map[]
    else OrEmpty(s.value.login.value.claims.value.extra)
  }

  /** The session a later hook request carries when it starts from this response. */
  function Reissued(r: Response): Session {
    Session(Some(r.access), Some(DefaultSession(Some(IdClaims(Some(r.id))))))
  }

  function NamesOf(groups: seq<Group>): set<string> {
    set g | g in groups :: g.name
  }

  predicate Managed(claim: string) {
    claim == "groups" || claim == "tenant_id"
  }

  /** The claim is absent from both, or present in both with the same value. */
  predicate SameClaim(a: ClaimSet, b: ClaimSet, claim: string) {
    (claim in a <==> claim in b) && (claim in a ==> a[claim] == b[claim])
  }

  /** The list holds exactly these names, each once. */
  ghost predicate Lists(v: Value, names: set<string>) {
    v.Names? && Distinct(v.names) && Elements(v.names) == names
  }

  /** One token: old claims kept, the managed ones replaced where the hook has a value for them. */
  ghost predicate MergedToken(before: ClaimSet, groups: seq<Group>, tenant: string, after: ClaimSet) {
    && (forall claim | !Managed(claim) :: SameClaim(before, after, claim))
    && (if groups == [] then SameClaim(before, after, "groups")
        else "groups" in after && Lists(after["groups"], NamesOf(groups)))
    && (if tenant == "" then SameClaim(before, after, "tenant_id")
        else "tenant_id" in after && after["tenant_id"] == Text(tenant))
  }

  ghost predicate Merged(s: Option<Session>, groups: seq<Group>, tenant: string, r: Response) {
    && MergedToken(AccessClaims(s), groups, tenant, r.access)
    && MergedToken(IdTokenClaims(s), groups, tenant, r.id)
    && (groups != [] ==> r.access["groups"] == r.id["groups"])
  }

  /** Copies claims one by one, in map order. */
  method CopyClaims(existing: ClaimSet) returns (copy: ClaimSet)
    ensures copy == existing
  {
    copy := map[];
    var rest := existing.Keys;
    while rest != {}
      invariant rest <= existing.Keys && copy.Keys == existing.Keys - rest
      invariant forall k | k in copy :: copy[k] == existing[k]
    {
      var k :| k in rest;
      copy := copy[k := existing[k]];
      rest := rest - {k};
    }
  }

  /** newHookResponse: group names deduplicated through a map, listed in any order. */
  method NewHookResponse(groups: seq<Group>, access: ClaimSet, id: ClaimSet) returns (r: Response)
    ensures MergedToken(access, groups, "", r.access) && MergedToken(id, groups, "", r.id)
    ensures groups != [] ==> r.access["groups"] == r.id["groups"]
  {
    var accessToken := CopyClaims(access);
    var idToken := CopyClaims(id);
    if |groups| == 0 {
      return Response(accessToken, idToken);
    }
    var groupNames: set<string> := {};
    for i := 0 to |groups|
      invariant groupNames == NamesOf(groups[..i])
    {
      groupNames := groupNames + {groups[i].name};
      assert groups[..i + 1] == groups[..i] + [groups[i]];
    }
    assert groups[..|groups|] == groups;
    var gg := Collect(groupNames);
    assert Elements(gg) == groupNames;
    return Response(accessToken["groups" := Names(gg)], idToken["groups" := Names(gg)]);
  }

  /** Which claims a response starts from: those of the session, and none where a part of it is missing. */
  lemma SessionClaims(extra: Option<ClaimSet>, login: Option<DefaultSession>)
    ensures AccessClaims(None) == map[] && IdTokenClaims(None) == map[]
    ensures AccessClaims(Some(Session(extra, login))) == if extra.Some? then extra.value else map[]
    ensures login.None? || login.value.claims.None? || login.value.claims.value.extra.None? ==>
              IdTokenClaims(Some(Session(extra, login))) == map[]
    ensures login.Some? && login.value.claims.Some? && login.value.claims.value.extra.Some? ==>
              IdTokenClaims(Some(Session(extra, login))) == login.value.claims.value.extra.value
  {}

  /** composeTokenResponse. */
  method ComposeTokenResponse(s: Option<Session>, groups: seq<Group>, tenant: string) returns (r: Response)
    ensures Merged(s, groups, tenant, r)
    ensures forall claim: string | claim != "groups" && claim != "tenant_id" ::
              && (claim in r.access <==> claim in AccessClaims(s))
              && (claim in r.access ==> r.access[claim] == AccessClaims(s)[claim])
              && (claim in r.id <==> claim in IdTokenClaims(s))
              && (claim in r.id ==> r.id[claim] == IdTokenClaims(s)[claim])
    ensures tenant == "" ==>
              && ("tenant_id" in r.access <==> "tenant_id" in AccessClaims(s))
              && ("tenant_id" in r.id <==> "tenant_id" in IdTokenClaims(s))
    ensures tenant != "" ==>
              && "tenant_id" in r.access && r.access["tenant_id"] == Text(tenant)
              && "tenant_id" in r.id && r.id["tenant_id"] == Text(tenant)
    ensures groups != [] ==>
              && "groups" in r.access && "groups" in r.id && r.access["groups"] == r.id["groups"]
              && r.access["groups"].Names?
              && var names := r.access["groups"].names;
                 && (forall i, j | 0 <= i < j < |names| :: names[i] != names[j])
                 && (forall g | g in groups :: g.name in names)
                 && (forall n | n in names :: exists g | g in groups :: g.name == n)
  {
    r := NewHookResponse(groups, AccessClaims(s), IdTokenClaims(s));
    if tenant != "" {
      r := Response(r.access["tenant_id" := Text(tenant)], r.id["tenant_id" := Text(tenant)]);
    }
    MergedExactly(AccessClaims(s), groups, tenant, r.access);
    MergedExactly(IdTokenClaims(s), groups, tenant, r.id);
  }

  /** One merged token, claim by claim. */
  lemma MergedExactly(before: ClaimSet, groups: seq<Group>, tenant: string, after: ClaimSet)
    requires MergedToken(before, groups, tenant, after)
    ensures forall claim: string | claim != "groups" && claim != "tenant_id" ::
              (claim in after <==> claim in before) && (claim in after ==> after[claim] == before[claim])
    ensures tenant != "" ==> "tenant_id" in after && after["tenant_id"] == Text(tenant)
    ensures groups != [] ==>
              && "groups" in after && after["groups"].Names?
              && var names := after["groups"].names;
                 && (forall i, j | 0 <= i < j < |names| :: names[i] != names[j])
                 && (forall g | g in groups :: g.name in names)
                 && (forall n | n in names :: exists g | g in groups :: g.name == n)
  {
    forall claim: string | claim != "groups" && claim != "tenant_id"
      ensures (claim in after <==> claim in before) && (claim in after ==> after[claim] == before[claim])
    {
      assert SameClaim(before, after, claim);
    }
    if groups != [] {
      var names := after["groups"].names;
      forall g | g in groups ensures g.name in names {
        assert g.name in NamesOf(groups) && g.name in Elements(names);
      }
      forall n | n in names ensures exists g | g in groups :: g.name == n {
        assert n in Elements(names) && n in NamesOf(groups);
      }
    }
  }

  /** Without groups there is nothing to replace the old claim with: a user who has lost every group keeps it. */
  lemma OldGroupsClaimStays(s: Option<Session>, tenant: string, r: Response)
    requires Merged(s, [], tenant, r)
    ensures "groups" in r.access <==> "groups" in AccessClaims(s)
    ensures "groups" in r.id <==> "groups" in IdTokenClaims(s)
    ensures "groups" in r.access ==> r.access["groups"] == AccessClaims(s)["groups"]
    ensures "groups" in r.id ==> r.id["groups"] == IdTokenClaims(s)["groups"]
  {}

  const FORMER_ADMIN :=
    Reissued(Response(map["groups" := Names(["admins"])], map["groups" := Names(["admins"])]))

  lemma FormerAdminKeepsClaim(r: Response)
    requires Merged(Some(FORMER_ADMIN), [], "", r)
    ensures "groups" in r.access && r.access["groups"] == r.id["groups"] == Names(["admins"])
  {
    OldGroupsClaimStays(Some(FORMER_ADMIN), "", r);
  }

  // ---- composing again ---------------------------------------------------------------------

  /** Equal claim by claim, but for the order in which group names are listed. */
  ghost predicate SameToken(a: ClaimSet, b: ClaimSet) {
    && a.Keys == b.Keys
    && (forall claim | claim in a && claim != "groups" :: a[claim] == b[claim])
    && ("groups" in a ==> SameGroups(a["groups"], b["groups"]))
  }

  ghost predicate SameGroups(v: Value, w: Value) {
    v == w || (v.Names? && w.Names? && multiset(v.names) == multiset(w.names))
  }

  lemma ListsAgree(v: Value, w: Value, names: set<string>)
    requires Lists(v, names) && Lists(w, names)
    ensures SameGroups(v, w)
  {
    DistinctCounts(v.names);
    DistinctCounts(w.names);
    assert multiset(v.names) == multiset(w.names);
  }

  lemma KeysAgree(a: ClaimSet, b: ClaimSet)
    requires forall claim: string :: claim in a <==> claim in b
    ensures a.Keys == b.Keys
  {}

  lemma MergingAgain(before: ClaimSet, groups: seq<Group>, tenant: string, once: ClaimSet, twice: ClaimSet)
    requires MergedToken(before, groups, tenant, once) && MergedToken(once, groups, tenant, twice)
    ensures SameToken(once, twice)
  {
    forall claim: string ensures claim in once <==> claim in twice {
      assert Managed(claim) || SameClaim(once, twice, claim);
    }
    KeysAgree(once, twice);
    forall claim | claim in once && claim != "groups" ensures once[claim] == twice[claim] {
      assert Managed(claim) || SameClaim(once, twice, claim);
    }
    if groups != [] {
      ListsAgree(once["groups"], twice["groups"], NamesOf(groups));
    }
  }

  /** Composing on its own output with the same context changes nothing, but perhaps the order of the names. */
  lemma ComposingAgain(s: Option<Session>, groups: seq<Group>, tenant: string, once: Response, twice: Response)
    requires Merged(s, groups, tenant, once) && Merged(Some(Reissued(once)), groups, tenant, twice)
    ensures SameToken(once.access, twice.access) && SameToken(once.id, twice.id)
  {
    MergingAgain(AccessClaims(s), groups, tenant, once.access, twice.access);
    MergingAgain(IdTokenClaims(s), groups, tenant, once.id, twice.id);
  }

  /** The contract leaves no freedom but that order. */
  lemma ResponseIsDetermined(s: Option<Session>, groups: seq<Group>, tenant: string, r: Response, r': Response)
    requires Merged(s, groups, tenant, r) && Merged(s, groups, tenant, r')
    ensures SameToken(r.access, r'.access) && SameToken(r.id, r'.id)
  {
    TokenIsDetermined(AccessClaims(s), groups, tenant, r.access, r'.access);
    TokenIsDetermined(IdTokenClaims(s), groups, tenant, r.id, r'.id);
  }

  lemma TokenIsDetermined(before: ClaimSet, groups: seq<Group>, tenant: string, a: ClaimSet, b: ClaimSet)
    requires MergedToken(before, groups, tenant, a) && MergedToken(before, groups, tenant, b)
    ensures SameToken(a, b)
  {
    forall claim: string ensures claim in a <==> claim in b {
      assert Managed(claim) || (SameClaim(before, a, claim) && SameClaim(before, b, claim));
    }
    KeysAgree(a, b);
    forall claim | claim in a && claim != "groups" ensures a[claim] == b[claim] {
      assert Managed(claim) || (SameClaim(before, a, claim) && SameClaim(before, b, claim));
    }
    if groups != [] {
      ListsAgree(a["groups"], b["groups"], NamesOf(groups));
    }
  }
}
