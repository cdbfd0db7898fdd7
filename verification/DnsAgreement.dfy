/** The renderer and the resolver give one meaning to the rules. */
module DnsAgreement {
  import opened StableSort
  import opened DnsRules
  import opened Options

  /** What a client gets: nothing configured, the normal answer, or an address. */
  datatype Answer = Unchanged | Normal | Address(ip: string)

  function AnswerOf(t: Option<string>): Answer {
    if t.Some? then Address(t.value) else Normal
  }

  /** dnsmasq's answer under the generated file. */
  function LiveAnswer(ds: seq<Directive>, query: string, device: Option<int>): Answer {
    var e := Effective(ds, query, device);
    if e.Some? then AnswerOf(e.value.target) else Unchanged
  }

  /** The answer the resolver's winning rule stands for. */
  function PredictedAnswer(w: Option<Rule>): Answer {
    if w.Some? then AnswerOf(TargetOf(w.value)) else Unchanged
  }

  predicate Renders(r: Rule, query: string, device: Option<int>, user: Option<int>) {
    Renderable(r) && Applies(r, query, device, user)
  }

  // ---- Lines of one rule --------------------------------------------------------------

  lemma TagsReach(r: Rule, query: string, device: Option<int>, user: Option<int>, byUser: map<int, seq<int>>)
    requires OwnerAgrees(byUser, device, user)
    ensures var tags := TagsFor(r.scope, r.scopeId, byUser);
            (None in tags || device in tags) <==> InScope(r, device, user)
  {
    var tags := TagsFor(r.scope, r.scopeId, byUser);
    match r.scope
    case Global => assert None in tags;
    case Device =>
      if r.scopeId.Some? && r.scopeId == device {
        assert device in tags;
      }
    case User =>
      if r.scopeId.Some? && r.scopeId.value in byUser {
        var u := r.scopeId.value;
        var ids := byUser[u];
        assert forall i :: 0 <= i < |ids| ==> tags[i] == Some(ids[i]) && Owns(byUser, u, ids[i]);
        if device in tags {
          var i :| 0 <= i < |tags| && tags[i] == device;
          assert Owns(byUser, u, ids[i]);
        }
        if device.Some? && Owns(byUser, u, device.value) {
          var i :| 0 <= i < |ids| && ids[i] == device.value;
          assert tags[i] == device;
        }
      }
      if InScope(r, device, user) {
        assert Owns(byUser, r.scopeId.value, device.value);
      }
    case OtherScope =>
  }

  predicate Same(e: Option<Directive>, w: Option<Rule>) {
    && (e.None? <==> w.None?)
    && (e.Some? ==> e.value.Override? && e.value.domain == w.value.domain && e.value.target == TargetOf(w.value))
  }

  /** One more line at the end of the file. */
  lemma EffectiveSnoc(ds: seq<Directive>, d: Directive, query: string, device: Option<int>)
    ensures Effective(ds + [d], query, device) ==
            var e := Effective(ds, query, device);
            if Reaches(d, query, device) && (e == None || |e.value.domain| <= |d.domain|) then Some(d) else e
  {
    assert (ds + [d])[..|ds|] == ds;
  }

  /** The lines of one rule, one for each of its tags: they take effect when one
      of them reaches the client and nothing longer is in effect. */
  lemma {:induction false} LinesTakeEffect(
    ds: seq<Directive>, r: Rule, tags: seq<Option<int>>, query: string, device: Option<int>)
    ensures var before := Effective(ds, query, device);
            var after := Effective(ds + LinesOf(r, tags), query, device);
            if (None in tags || device in tags) && DomainMatches(query, r.domain)
               && (before == None || |before.value.domain| <= |r.domain|)
            then after.Some? && after.value.Override? && after.value.domain == r.domain
                 && after.value.target == TargetOf(r)
            else after == before
  {
    if tags == [] {
      assert ds + LinesOf(r, tags) == ds;
    } else {
      var l := |tags| - 1;
      LinesTakeEffect(ds, r, tags[..l], query, device);
      var d := Override(tags[l], r.domain, TargetOf(r));
      assert ds + LinesOf(r, tags) == (ds + LinesOf(r, tags[..l])) + [d];
      EffectiveSnoc(ds + LinesOf(r, tags[..l]), d, query, device);
      assert forall t :: t in tags <==> t in tags[..l] || t == tags[l];
    }
  }

  /** Over the whole file, in file order: the line in effect is the line of the
      longest rule that is rendered and reaches the client. */
  lemma {:induction false} FileFollowsRules(
    rs: seq<Rule>, query: string, device: Option<int>, user: Option<int>, byUser: map<int, seq<int>>)
    requires OwnerAgrees(byUser, device, user)
    ensures Same(Effective(AllLines(rs, byUser), query, device),
                 Best(Filter(rs, r => Renders(r, query, device, user)), Length))
  {
    if rs != [] {
      var l := |rs| - 1;
      var r := rs[l];
      var keep := r => Renders(r, query, device, user);
      FileFollowsRules(rs[..l], query, device, user, byUser);
      assert rs == rs[..l] + [r];
      FilterSnoc(rs[..l], r, keep);
      if Renderable(r) {
        TagsReach(r, query, device, user, byUser);
        LinesTakeEffect(AllLines(rs[..l], byUser), r, TagsFor(r.scope, r.scopeId, byUser), query, device);
        if keep(r) {
          BestSnoc(Filter(rs[..l], keep), r, Length);
        }
      } else {
        assert AllLines(rs, byUser) == AllLines(rs[..l], byUser);
      }
      if !keep(r) {
        assert Filter(rs, keep) == Filter(rs[..l], keep);
      }
    }
  }

  lemma {:induction false} UpstreamLinesIgnored(
    ds: seq<Directive>, extra: seq<Directive>, query: string, device: Option<int>)
    requires forall d <- extra :: d.Upstream?
    ensures Effective(ds + extra, query, device) == Effective(ds, query, device)
  {
    if extra == [] {
      assert ds + extra == ds;
    } else {
      var l := |extra| - 1;
      UpstreamLinesIgnored(ds, extra[..l], query, device);
      assert ds + extra == (ds + extra[..l]) + [extra[l]];
      EffectiveSnoc(ds + extra[..l], extra[l], query, device);
      assert extra[l] in extra;
    }
  }

  lemma {:induction false} ServerLinesAreUpstream(ss: seq<Server>, byUser: map<int, seq<int>>)
    ensures forall d <- ServerLines(ss, byUser) :: d.Upstream?
  {
    if ss != [] {
      var s := ss[|ss| - 1];
      var tags := TagsFor(s.scope, s.scopeId, byUser);
      ServerLinesAreUpstream(ss[..|ss| - 1], byUser);
      assert forall d <- seq(|tags|, i requires 0 <= i < |tags| => Upstream(tags[i], s.ip)) :: d.Upstream?;
    }
  }

  lemma RanksAreLexicographic()
    ensures Lexicographic(CandidateRank, Length, FileRank)
  {
    forall a: Rule, b: Rule ensures CandidateRank(a) <= CandidateRank(b) <==> LexAtMost(a, b, Length, FileRank) {
      assert 0 <= FileRank(a) < 6 && 0 <= FileRank(b) < 6;
    }
  }

  lemma CandidatesSnoc(rs: seq<Rule>, r: Rule, query: string, device: Option<int>, user: Option<int>)
    ensures Candidates(rs + [r], query, device, user) ==
            Candidates(rs, query, device, user) + if Applies(r, query, device, user) then [r] else []
  {
    assert (rs + [r])[..|rs|] == rs;
  }

  lemma {:induction false} FilterTwice(rs: seq<Rule>, query: string, device: Option<int>, user: Option<int>)
    ensures Filter(rs, r => Renders(r, query, device, user)) ==
            Candidates(Filter(rs, Renderable), query, device, user)
  {
    if rs != [] {
      var l := |rs| - 1;
      FilterTwice(rs[..l], query, device, user);
      CandidatesSnoc(Filter(rs[..l], Renderable), rs[l], query, device, user);
      if !Renderable(rs[l]) {
        assert Filter(rs, Renderable) == Filter(rs[..l], Renderable);
      }
    }
  }

  // ---- The theorem -----------------------------------------------------------------------

  /** For every rule table, override list, query and client, dnsmasq's answer
      under the generated file is the one the resolver's winner stands for, among
      the rules that pass the renderer's own safety checks. */
  lemma LiveAnswerIsPredicted(
    rs: seq<Rule>, ss: seq<Server>, byUser: map<int, seq<int>>,
    query: string, device: Option<int>, user: Option<int>)
    requires OwnerAgrees(byUser, device, user)
    ensures LiveAnswer(Rendered(rs, ss, byUser), query, device) ==
            PredictedAnswer(Winner(Filter(rs, Renderable), query, device, user))
  {
    var keep := r => Renders(r, query, device, user);
    var ordered := Sort(rs, FileRank);
    ServerLinesAreUpstream(ss, byUser);
    UpstreamLinesIgnored(AllLines(ordered, byUser), ServerLines(ss, byUser), query, device);
    FileFollowsRules(ordered, query, device, user, byUser);
    FilterSort(rs, FileRank, keep);
    RanksAreLexicographic();
    BestOfSort(Filter(rs, keep), Length, FileRank, CandidateRank);
    FilterTwice(rs, query, device, user);
  }

  lemma {:induction false} FiltersCommute(rs: seq<Rule>, query: string, device: Option<int>, user: Option<int>)
    ensures Candidates(Filter(rs, Renderable), query, device, user) ==
            Filter(Candidates(rs, query, device, user), Renderable)
  {
    if rs != [] {
      var l := |rs| - 1;
      assert rs == rs[..l] + [rs[l]];
      FiltersCommute(rs[..l], query, device, user);
      var kept, applying := Filter(rs[..l], Renderable), Candidates(rs[..l], query, device, user);
      assert kept + [] == kept && applying + [] == applying;
      FilterSnoc(rs[..l], rs[l], Renderable);
      CandidatesSnoc(rs[..l], rs[l], query, device, user);
      if Renderable(rs[l]) {
        CandidatesSnoc(kept, rs[l], query, device, user);
      }
      if Applies(rs[l], query, device, user) {
        FilterSnoc(applying, rs[l], Renderable);
        var f := Filter(applying, Renderable);
        assert f + [] == f;
      }
    }
  }

  /** The resolver does not make the renderer's safety checks. It names the rule that
      decides in the file if and only if its winner passes them. */
  lemma WinnerIsRendered(rs: seq<Rule>, query: string, device: Option<int>, user: Option<int>)
    ensures var w := Winner(rs, query, device, user);
            Winner(Filter(rs, Renderable), query, device, user) == w <==> (w.Some? ==> Renderable(w.value))
  {
    FiltersCommute(rs, query, device, user);
    BestOfFilter(Candidates(rs, query, device, user), CandidateRank, Renderable);
  }

  /** The status dnsmasq's behaviour deserves, seen from the answer alone. */
  function StatusOfAnswer(a: Answer): Status {
    match a
    case Unchanged => NoRule
    case Normal => Allowed
    case Address(ip) => if ip == BLACKHOLE then Blocked else Redirected
  }

  /** When the winner passes the renderer's checks, the reported status is what the
      live file does exactly when the winner has one of the three known actions and
      is not a redirect to 0.0.0.0, which the file cannot tell from a block. */
  lemma StatusAgrees(
    rs: seq<Rule>, ss: seq<Server>, byUser: map<int, seq<int>>,
    query: string, device: Option<int>, user: Option<int>)
    requires OwnerAgrees(byUser, device, user)
    requires var w := Winner(rs, query, device, user); w.Some? ==> Renderable(w.value)
    ensures var w := Winner(rs, query, device, user);
            var reported := if w.Some? then StatusOf(w.value.action) else NoRule;
            && LiveAnswer(Rendered(rs, ss, byUser), query, device) == PredictedAnswer(w)
            && (StatusOfAnswer(LiveAnswer(Rendered(rs, ss, byUser), query, device)) == reported <==>
                (w.Some? ==> w.value.action != OtherAction
                             && (w.value.action == Redirect ==> TargetText(w.value) != BLACKHOLE)))
  {
    LiveAnswerIsPredicted(rs, ss, byUser, query, device, user);
    WinnerIsRendered(rs, query, device, user);
  }

  /** A redirect whose target is a blank is skipped by the renderer and reported by
      the resolver. */
  lemma BlankRedirectDisagrees(byUser: map<int, seq<int>>)
    ensures var r := Rule(Global, None, Redirect, "a.example", " ", true);
            && LiveAnswer(Rendered([r], [], byUser), "a.example", None) == Unchanged
            && Winner([r], "a.example", None, None) == Some(r)
            && StatusOf(r.action) != StatusOfAnswer(Unchanged)
  {
    var r := Rule(Global, None, Redirect, "a.example", " ", true);
    assert r.target[0] == ' ' && IsSpace(' ');
    assert !Renderable(r);
    assert [r][..0] == [];
    assert Sort([r], FileRank) == [r];
    assert AllLines([r], byUser) == [];
    CandidatesSnoc([], r, "a.example", None, None);
    assert [] + [r] == [r];
    assert Applies(r, "a.example", None, None);
    assert Candidates([r], "a.example", None, None) == [r];
  }
}
