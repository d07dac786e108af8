/** Grouping and scaling the grid's fuels in `demos/caiso.py`. */
module CaisoMix {
  import opened Options
  import opened RealSeq

  /** One band of the stack and the published columns it is the sum of, bottom band first. */
  datatype Group = Group(name: string, members: seq<string>)

  const GROUPS: seq<Group> := [
    Group("firm", ["nuclear", "geothermal", "large_hydro", "small_hydro"]),
    Group("solar", ["solar"]),
    Group("wind", ["wind"]),
    Group("imports", ["imports"]),
    Group("burned", ["natural_gas", "coal", "biomass", "biogas", "other"])]

  /** A published column; a sample that has not happened yet is `None`. */
  type Series = seq<Option<real>>

  /** `np.nan_to_num`. */
  function Value(v: Option<real>): real { if v.Some? then v.value else 0.0 }

  ghost predicate Aligned(fuels: map<string, Series>, n: nat) {
    forall m :: m in fuels ==> |fuels[m]| == n
  }

  /** What arrived of the members, at sample `i`. */
  function Raw(fuels: map<string, Series>, members: seq<string>, n: nat, i: nat): real
    requires Aligned(fuels, n) && i < n
  {
    if members == [] then 0.0
    else
      var m := members[|members| - 1];
      Raw(fuels, members[..|members| - 1], n, i) + if m in fuels then Value(fuels[m][i]) else 0.0
  }

  /** One column counts for what it reads, and for nothing where it is absent or has no sample yet. */
  lemma RawOfOne(fuels: map<string, Series>, m: string, n: nat, i: nat)
    requires Aligned(fuels, n) && i < n
    ensures Raw(fuels, [m], n, i) == if m in fuels && fuels[m][i].Some? then fuels[m][i].value else 0.0
  {
    assert [m][..0] == [];
  }

  function GroupSeries(fuels: map<string, Series>, g: Group, n: nat): (s: seq<real>)
    requires Aligned(fuels, n)
    ensures |s| == n && forall i :: 0 <= i < n ==> s[i] >= 0.0
  {
    seq(n, i requires 0 <= i < n => Max(Raw(fuels, g.members, n, i), 0.0))
  }

  /** The grouping loop of `read_mix`: absent columns are left out, negative sums are clamped. */
  method ReadGroups(fuels: map<string, Series>, n: nat) returns (groups: map<string, seq<real>>)
    requires Aligned(fuels, n)
    ensures forall k :: 0 <= k < |GROUPS| ==>
      GROUPS[k].name in groups && groups[GROUPS[k].name] == GroupSeries(fuels, GROUPS[k], n)
  {
    groups := map[];
    NamesDistinct();
    for k := 0 to |GROUPS|
      invariant forall j :: 0 <= j < k ==>
        GROUPS[j].name in groups && groups[GROUPS[j].name] == GroupSeries(fuels, GROUPS[j], n)
    {
      var total := SumMembers(fuels, GROUPS[k].members, n);
      groups := groups[GROUPS[k].name := seq(n, i requires 0 <= i < n => Max(total[i], 0.0))];
    }
  }

  method SumMembers(fuels: map<string, Series>, members: seq<string>, n: nat) returns (total: seq<real>)
    requires Aligned(fuels, n)
    ensures |total| == n && forall i :: 0 <= i < n ==> total[i] == Raw(fuels, members, n, i)
  {
    total := seq(n, _ => 0.0);
    for j := 0 to |members|
      invariant |total| == n && forall i :: 0 <= i < n ==> total[i] == Raw(fuels, members[..j], n, i)
    {
      assert members[..j + 1][..j] == members[..j];
      var m := members[j];
      if m in fuels {
        total := seq(n, i requires 0 <= i < n && i < |total| && i < |fuels[m]| => total[i] + Value(fuels[m][i]));
      }
    }
    assert members[..|members|] == members;
  }

  lemma NamesDistinct()
    ensures forall j, k :: 0 <= j < k < |GROUPS| ==> GROUPS[j].name != GROUPS[k].name
  {
    assert GROUPS[0].name[0] == 'f' && GROUPS[1].name[0] == 's' && GROUPS[2].name[0] == 'w';
    assert GROUPS[3].name[0] == 'i' && GROUPS[4].name[0] == 'b';
  }

  // ----- nothing is counted twice or dropped

  /** Every fuel that is published, each in one group and no group twice over. */
  lemma EveryFuelOnce()
    ensures AllMembers(GROUPS) == ["nuclear", "geothermal", "large_hydro", "small_hydro", "solar", "wind", "imports",
                                   "natural_gas", "coal", "biomass", "biogas", "other"]
  {
    assert GROUPS[..0] == [] && GROUPS[..5] == GROUPS;
    MembersStep(0);
    MembersStep(1);
    MembersStep(2);
    MembersStep(3);
    MembersStep(4);
  }

  lemma MembersStep(k: nat)
    requires k < |GROUPS|
    ensures AllMembers(GROUPS[..k + 1]) == AllMembers(GROUPS[..k]) + GROUPS[k].members
  {
    assert GROUPS[..k + 1][..k] == GROUPS[..k];
  }

  function AllMembers(gs: seq<Group>): seq<string> {
    if gs == [] then [] else AllMembers(gs[..|gs| - 1]) + gs[|gs| - 1].members
  }

  lemma {:induction false} RawConcat(fuels: map<string, Series>, a: seq<string>, b: seq<string>, n: nat, i: nat)
    requires Aligned(fuels, n) && i < n
    ensures Raw(fuels, a + b, n, i) == Raw(fuels, a, n, i) + Raw(fuels, b, n, i)
  {
    if b == [] {
      assert a + b == a;
    } else {
      assert (a + b)[..|a + b| - 1] == a + b[..|b| - 1];
      RawConcat(fuels, a, b[..|b| - 1], n, i);
    }
  }

  function Stacked(fuels: map<string, Series>, gs: seq<Group>, n: nat, i: nat): real
    requires Aligned(fuels, n) && i < n
  {
    if gs == [] then 0.0 else Stacked(fuels, gs[..|gs| - 1], n, i) + GroupSeries(fuels, gs[|gs| - 1], n)[i]
  }

  ghost predicate NothingClamped(fuels: map<string, Series>, gs: seq<Group>, n: nat, i: nat)
    requires Aligned(fuels, n) && i < n
  {
    forall j :: 0 <= j < |gs| ==> Raw(fuels, gs[j].members, n, i) >= 0.0
  }

  /** However the columns are grouped, the stack's total is never below what was published, and is
      exactly it when no group's own sum was negative. */
  lemma {:induction false} StackIsPublished(fuels: map<string, Series>, gs: seq<Group>, n: nat, i: nat)
    requires Aligned(fuels, n) && i < n
    ensures Stacked(fuels, gs, n, i) >= Raw(fuels, AllMembers(gs), n, i)
    ensures Stacked(fuels, gs, n, i) == Raw(fuels, AllMembers(gs), n, i) <==> NothingClamped(fuels, gs, n, i)
  {
    if gs != [] {
      var init, last := gs[..|gs| - 1], gs[|gs| - 1];
      StackIsPublished(fuels, init, n, i);
      RawConcat(fuels, AllMembers(init), last.members, n, i);
      ClampedOfOneMore(fuels, gs, n, i);
    }
  }

  lemma ClampedOfOneMore(fuels: map<string, Series>, gs: seq<Group>, n: nat, i: nat)
    requires Aligned(fuels, n) && i < n && gs != []
    ensures NothingClamped(fuels, gs, n, i) <==>
      NothingClamped(fuels, gs[..|gs| - 1], n, i) && Raw(fuels, gs[|gs| - 1].members, n, i) >= 0.0
  {
  }

  // ----- the clean share

  /** `clean_share`: carbon-free groups over all supply, battery discharge below the line only. */
  function CleanShare(firm: real, solar: real, wind: real, imports: real, burned: real, batt: real): Option<real> {
    var total := firm + solar + wind + imports + burned + Max(0.0, batt);
    if total <= 0.0 then None else Some((firm + solar + wind) / total)
  }

  /** A share, never over one, and one only when nothing else supplied anything. */
  lemma CleanShareIsAShare(firm: real, solar: real, wind: real, imports: real, burned: real, batt: real)
    requires firm >= 0.0 && solar >= 0.0 && wind >= 0.0 && imports >= 0.0 && burned >= 0.0
    ensures var s := CleanShare(firm, solar, wind, imports, burned, batt);
      s.Some? ==> 0.0 <= s.value <= 1.0 && (s.value == 1.0 <==> imports == burned == 0.0 && batt <= 0.0)
    ensures var s := CleanShare(firm, solar, wind, imports, burned, batt);
      (s.None? <==> firm == solar == wind == imports == burned == 0.0 && batt <= 0.0)
      && (s.Some? ==> Weighed(s.value, firm + solar + wind + imports + burned + Max(0.0, batt)) == firm + solar + wind)
  {
    ShareOfSupply(firm + solar + wind, imports + burned + Max(0.0, batt));
  }

  lemma ShareOfSupply(clean: real, rest: real)
    requires clean >= 0.0 && rest >= 0.0
    ensures clean + rest > 0.0 ==> 0.0 <= clean / (clean + rest) <= 1.0
    ensures clean + rest > 0.0 ==> (clean / (clean + rest) == 1.0 <==> rest == 0.0)
    ensures clean + rest > 0.0 ==> Weighed(clean / (clean + rest), clean + rest) == clean
  {
    if clean + rest > 0.0 {
      var total := clean + rest;
      PartOfWhole(clean, total);
      assert clean / total * total == clean;
    }
  }
}
