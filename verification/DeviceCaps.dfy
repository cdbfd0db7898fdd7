/** A person's daily cap shared out among devices. */
module DeviceCaps {
  import opened DailyPlan
  import opened Collections

  datatype Split = Open | Equal | Proportional

  // shares of the listed devices, with the empty and the negative ones left out
  function Counted(shares: map<int, real>, ids: set<int>): map<int, real> {
    map d | d in shares && d in ids && shares[d] > 0.0 :: shares[d]
  }

  function Ones(ids: set<int>): map<int, real> {
    map d | d in ids :: 1.0
  }

  /** The share of a device as a part of the cap. */
  function Portion(cap: real, total: real): real -> real
    requires total > 0.0
  {
    share => cap * share / total
  }

  function Mapped(m: map<int, real>, f: real -> real): map<int, real> {
    map d | d in m :: f(m[d])
  }

  function Rounded(m: map<int, real>): map<int, real> {
    map d | d in m :: Round4(m[d])
  }

  function Members(ids: seq<int>): set<int> {
    set d | d in ids
  }

  /** The devices that have a cap of their own, with that cap. An equal split divides
      by the length of the list. */
  ghost function Caps(cap: real, split: Split, ids: seq<int>, shares: map<int, real>): map<int, real> {
    var counted := Counted(shares, Members(ids));
    if split == Equal && ids != [] then Rounded(Mapped(Ones(Members(ids)), Portion(cap, |ids| as real)))
    else if split == Proportional && Sum(counted) > 0.0 then Rounded(Mapped(counted, Portion(cap, Sum(counted))))
    else map[]
  }

  predicate WithinRounding(x: real, y: real, n: nat) {
    y - 0.00005 * (n as real) <= x <= y + 0.00005 * (n as real)
  }

  lemma {:induction false} RoundedSum(m: map<int, real>)
    ensures WithinRounding(Sum(Rounded(m)), Sum(m), |m|)
    decreases |m|
  {
    if m == map[] {
      assert Rounded(m) == map[];
    } else {
      var e := Pick(m);
      SmallerMap(m, e);
      RoundedSum(m - {e});
      assert Rounded(m) - {e} == Rounded(m - {e});
      SumRemove(Rounded(m), e);
      SumRemove(m, e);
      Round4Close(m[e]);
    }
  }

  ghost predicate Additive(f: real -> real) {
    forall x, y :: f(x + y) == f(x) + f(y)
  }

  lemma {:induction false} MappedSum(m: map<int, real>, f: real -> real)
    requires Additive(f)
    ensures Sum(Mapped(m, f)) == f(Sum(m))
    decreases |m|
  {
    if m == map[] {
      assert Mapped(m, f) == map[];
      assert f(0.0 + 0.0) == f(0.0) + f(0.0);
    } else {
      var e := Pick(m);
      SmallerMap(m, e);
      MappedSum(m - {e}, f);
      assert Mapped(m, f) - {e} == Mapped(m - {e}, f);
      SumRemove(Mapped(m, f), e);
      SumRemove(m, e);
    }
  }

  lemma QuotientOfSum(a: real, b: real, t: real)
    requires t > 0.0
    ensures (a + b) / t == a / t + b / t
  {
  }

  lemma ProductOfSum(c: real, x: real, y: real)
    ensures c * (x + y) == c * x + c * y
  {
  }

  lemma WholeQuotient(c: real, t: real)
    requires t > 0.0
    ensures c * t / t == c
  {
  }

  lemma PortionIsAdditive(cap: real, total: real)
    requires total > 0.0
    ensures Additive(Portion(cap, total))
  {
    forall x, y ensures Portion(cap, total)(x + y) == Portion(cap, total)(x) + Portion(cap, total)(y) {
      PortionOfSum(cap, total, x, y);
    }
  }

  lemma PortionOfSum(cap: real, total: real, x: real, y: real)
    requires total > 0.0
    ensures Portion(cap, total)(x + y) == Portion(cap, total)(x) + Portion(cap, total)(y)
  {
    var a, b := cap * x, cap * y;
    ProductOfSum(cap, x, y);
    QuotientOfSum(a, b, total);
  }

  lemma {:induction false} SumOfOnes(ids: set<int>)
    ensures Sum(Ones(ids)) == |ids| as real
    decreases |ids|
  {
    if ids == {} {
      assert Ones(ids) == map[];
    } else {
      assert Ones(ids).Keys == ids;
      var e := Pick(Ones(ids));
      SumOfOnes(ids - {e});
      assert Ones(ids) - {e} == Ones(ids - {e});
      SumRemove(Ones(ids), e);
    }
  }

  lemma PortionOfWhole(cap: real, total: real)
    requires total > 0.0
    ensures Portion(cap, total)(total) == cap
  {
    WholeQuotient(cap, total);
  }

  lemma AdditiveShares(m: map<int, real>, f: real -> real)
    requires Additive(f)
    ensures var caps := Rounded(Mapped(m, f));
            caps.Keys == m.Keys && WithinRounding(Sum(caps), f(Sum(m)), |caps|)
  {
    var exact := Mapped(m, f);
    assert exact.Keys == m.Keys && Rounded(exact).Keys == exact.Keys;
    assert |Rounded(exact)| == |Rounded(exact).Keys| && |exact| == |exact.Keys|;
    MappedSum(m, f);
    RoundedSum(exact);
  }

  lemma SharedOut(cap: real, m: map<int, real>, total: real)
    requires Sum(m) == total > 0.0
    ensures var caps := Rounded(Mapped(m, Portion(cap, total)));
            caps.Keys == m.Keys && WithinRounding(Sum(caps), cap, |caps|)
  {
    PortionIsAdditive(cap, total);
    AdditiveShares(m, Portion(cap, total));
    PortionOfWhole(cap, total);
  }

  lemma SharedEqually(cap: real, ids: seq<int>)
    requires ids != []
    ensures var caps := Rounded(Mapped(Ones(Members(ids)), Portion(cap, |ids| as real)));
            && caps.Keys == Members(ids)
            && WithinRounding(Sum(caps), Portion(cap, |ids| as real)(|Members(ids)| as real), |caps|)
  {
    SumOfOnes(Members(ids));
    assert Ones(Members(ids)).Keys == Members(ids);
    PortionIsAdditive(cap, |ids| as real);
    AdditiveShares(Ones(Members(ids)), Portion(cap, |ids| as real));
  }

  /** Sharing out makes nothing and loses nothing: whenever devices get caps of
      their own, these add up to the person's cap, up to half a unit of the last
      decimal for each. Devices that are not listed get none. In an equal split a
      device that is listed twice costs the others one part of the cap. */
  lemma CapsAddUp(cap: real, split: Split, ids: seq<int>, shares: map<int, real>)
    ensures var caps := Caps(cap, split, ids, shares);
            && caps.Keys <= Members(ids)
            && (split == Equal ==> caps.Keys == Members(ids))
            && (split == Equal && ids != [] ==>
                  WithinRounding(Sum(caps), Portion(cap, |ids| as real)(|Members(ids)| as real), |caps|))
            && (caps != map[] && (split == Equal ==> |Members(ids)| == |ids|) ==>
                  WithinRounding(Sum(caps), cap, |caps|))
  {
    var counted := Counted(shares, Members(ids));
    if split == Equal && ids != [] {
      SharedEqually(cap, ids);
      PortionOfWhole(cap, |ids| as real);
    } else if split == Proportional && Sum(counted) > 0.0 {
      SharedOut(cap, counted, Sum(counted));
    }
  }
}
