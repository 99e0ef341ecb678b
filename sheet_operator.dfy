/** The operator sheet of the editor: the roster shown to the user, filtered by
    profession and then by sub-profession, the "is selected" test, the click rules
    and bulk buttons, and the pagination of the filtered list.

    The callbacks `submitOperator`, `removeOperator` and the toaster belong to the
    caller; the sheet's handlers are modelled as the commands they issue. */
module SheetOperator {
  import opened Json

  /** A roster entry: an operator's name and the id of its sub-profession. */
  datatype OperatorInfo = OperatorInfo(name: string, subProf: string)

  /** An operator assigned to the operation, with the `_id` the editor gave it. */
  datatype Operator = Operator(id: Option<string>, name: string)

  /** A group of the operation and its members. */
  datatype Group = Group(name: string, opers: seq<Operator>)

  datatype SubProfession = SubProfession(id: string, name: string)

  datatype Profession = Profession(id: string, name: string, sub: seq<SubProfession>)

  /** What a handler asks of its caller. */
  datatype Command =
    | Submit(op: Operator, fromSelectAll: bool) // `submitOperator(op, () => {})` from select-all, else `submitOperator(op, undefined, true)`
    | RemoveOne(index: int)                     // `removeOperator(index)`
    | WarnGrouped                               // the toaster: the operator is already in a group

  datatype OperatorEvent = Box | Skill

  const AllId := "all"
  const OthersId := "others"
  const SelectedId := "selected"
  const NotChar1 := "notchar1"
  const PageSize := 60

  const AllProfession := Profession(AllId, "全部", [])
  const OthersProfession := Profession(OthersId, "其它", [])
  const AllSubProfession := SubProfession(AllId, "全部")
  const SelectedSubProfession := SubProfession(SelectedId, "已选择")

  // ---------------------------------------------------------------------------
  // Sequence helpers: `filter`, `some`, `every`, `findIndex`

  /** `a` is `b` with some elements dropped, the others kept in their order. */
  ghost predicate Subsequence<T>(a: seq<T>, b: seq<T>)
    decreases |b|
  {
    if a == [] then true
    else if b == [] then false
    else (a[0] == b[0] && Subsequence(a[1..], b[1..])) || Subsequence(a, b[1..])
  }

  /** `xs.filter(p)`: every element that passes, as often as it occurs, and no other. */
  function Filter<T(!new)>(xs: seq<T>, p: T -> bool): (r: seq<T>)
    ensures |r| <= |xs|
    ensures forall x :: multiset(r)[x] == if p(x) then multiset(xs)[x] else 0
    ensures forall x :: x in r <==> x in xs && p(x)
  {
    if xs == [] then []
    else
      assert xs == [xs[0]] + xs[1..];
      (if p(xs[0]) then [xs[0]] else []) + Filter(xs[1..], p)
  }

  lemma {:induction false} FilterSubsequence<T(!new)>(xs: seq<T>, p: T -> bool)
    ensures Subsequence(Filter(xs, p), xs)
  {
    if xs != [] {
      FilterSubsequence(xs[1..], p);
      var rest := Filter(xs[1..], p);
      if p(xs[0]) {
        assert Filter(xs, p) == [xs[0]] + rest;
        assert ([xs[0]] + rest)[1..] == rest;
      } else {
        assert Filter(xs, p) == rest;
        if rest != [] {
          assert Subsequence(rest, xs[1..]);
        }
      }
    }
  }

  lemma {:induction false} FilterAll<T(!new)>(xs: seq<T>, p: T -> bool)
    requires forall i :: 0 <= i < |xs| ==> p(xs[i])
    ensures Filter(xs, p) == xs
  {
    if xs != [] {
      FilterAll(xs[1..], p);
    }
  }

  /** `xs.some(p)`. */
  function Any<T>(xs: seq<T>, p: T -> bool): (r: bool)
    ensures r <==> exists i :: 0 <= i < |xs| && p(xs[i])
  {
    if xs == [] then false
    else if p(xs[0]) then true
    else
      var r := Any(xs[1..], p);
      assert forall i :: 1 <= i < |xs| ==> xs[i] == xs[1..][i - 1];
      r
  }

  /** `xs.every(p)`. */
  function Every<T>(xs: seq<T>, p: T -> bool): (r: bool)
    ensures r <==> forall i :: 0 <= i < |xs| ==> p(xs[i])
  {
    if xs == [] then true
    else if !p(xs[0]) then false
    else
      var r := Every(xs[1..], p);
      assert forall i :: 1 <= i < |xs| ==> xs[i] == xs[1..][i - 1];
      r
  }

  /** `xs.findIndex(p)`: the first index whose element satisfies `p`, or -1. */
  function FindIndex<T>(xs: seq<T>, p: T -> bool): (r: int)
    ensures -1 <= r < |xs|
    ensures r == -1 <==> forall i :: 0 <= i < |xs| ==> !p(xs[i])
    ensures 0 <= r ==> p(xs[r]) && forall i :: 0 <= i < r ==> !p(xs[i])
  {
    if xs == [] then -1
    else if p(xs[0]) then 0
    else
      var k := FindIndex(xs[1..], p);
      assert forall i :: 1 <= i < |xs| ==> xs[i] == xs[1..][i - 1];
      if k == -1 then -1 else k + 1
  }

  /** The index of the first assigned operator called `name`, or -1. */
  function IndexOfName(ops: seq<Operator>, name: string): (r: int)
    ensures -1 <= r < |ops|
    ensures r == -1 <==> forall i :: 0 <= i < |ops| ==> ops[i].name != name
    ensures 0 <= r ==> ops[r].name == name && forall i :: 0 <= i < r ==> ops[i].name != name
  {
    FindIndex(ops, (o: Operator) => o.name == name)
  }

  /** The index of the first assigned operator whose `_id` equals `id`, or -1. */
  function IndexOfId(ops: seq<Operator>, id: Option<string>): (r: int)
    ensures -1 <= r < |ops|
    ensures r == -1 <==> forall i :: 0 <= i < |ops| ==> ops[i].id != id
    ensures 0 <= r ==> ops[r].id == id && forall i :: 0 <= i < r ==> ops[i].id != id
  {
    FindIndex(ops, (o: Operator) => o.id == id)
  }

  // ---------------------------------------------------------------------------
  // The two filters

  /** The professions offered: 'all', the game's professions, then 'others'. */
  function ProfessionChoices(professions: seq<Profession>): (r: seq<Profession>)
    ensures 0 < |r| && r[0] == AllProfession
    ensures forall p :: p in r <==> p == AllProfession || p == OthersProfession || p in professions
  {
    [AllProfession] + professions + [OthersProfession]
  }

  /** The sub-professions offered for a profession: 'all', 'selected', then its own. */
  function SubProfessionChoices(prof: Profession): (r: seq<SubProfession>)
    ensures 0 < |r| && r[0] == AllSubProfession
    ensures forall s :: s in r <==> s == AllSubProfession || s == SelectedSubProfession || s in prof.sub
  {
    [AllSubProfession, SelectedSubProfession] + prof.sub
  }

  predicate OnRoster(roster: seq<OperatorInfo>, name: string) {
    Any(roster, (r: OperatorInfo) => r.name == name)
  }

  /** The assigned operators that are not on the roster, as roster entries with no
      sub-profession. */
  function CustomOperators(existed: seq<Operator>, roster: seq<OperatorInfo>): (r: seq<OperatorInfo>)
    ensures |r| <= |existed|
  {
    var kept := Filter(existed, (o: Operator) => !OnRoster(roster, o.name));
    seq(|kept|, i requires 0 <= i < |kept| => OperatorInfo(kept[i].name, ""))
  }

  /** The roster the sheet lists: custom operators first, then the roster. */
  function Merged(existed: seq<Operator>, roster: seq<OperatorInfo>): seq<OperatorInfo> {
    CustomOperators(existed, roster) + roster
  }

  /** Custom operators are exactly the assigned names missing from the roster, each
      with an empty sub-profession, listed before the whole roster. */
  lemma MergedRoster(existed: seq<Operator>, roster: seq<OperatorInfo>)
    ensures var m, custom := Merged(existed, roster), CustomOperators(existed, roster);
            && m[|custom|..] == roster
            && (forall x :: x in custom ==> x.subProf == "" && !OnRoster(roster, x.name))
            && (forall o :: o in existed && !OnRoster(roster, o.name) ==> OperatorInfo(o.name, "") in custom)
            && (forall x :: x in custom ==> exists o :: o in existed && o.name == x.name)
  {
    var p := (o: Operator) => !OnRoster(roster, o.name);
    var kept := Filter(existed, p);
    var custom := CustomOperators(existed, roster);
    forall o | o in existed && !OnRoster(roster, o.name) ensures OperatorInfo(o.name, "") in custom {
      assert o in kept;
      var i :| 0 <= i < |kept| && kept[i] == o;
      assert custom[i] == OperatorInfo(o.name, "");
    }
    forall x | x in custom ensures x.subProf == "" && !OnRoster(roster, x.name) && exists o :: o in existed && o.name == x.name {
      var i :| 0 <= i < |custom| && custom[i] == x;
      assert kept[i] in kept;
    }
  }

  /** Custom operators keep the order in which they were assigned. */
  lemma CustomOperatorsInOrder(existed: seq<Operator>, roster: seq<OperatorInfo>)
    ensures var kept := Filter(existed, (o: Operator) => !OnRoster(roster, o.name));
            && Subsequence(kept, existed)
            && |CustomOperators(existed, roster)| == |kept|
            && forall i :: 0 <= i < |kept| ==> CustomOperators(existed, roster)[i].name == kept[i].name
  {
    FilterSubsequence(existed, (o: Operator) => !OnRoster(roster, o.name));
  }

  /** Whether a profession's tab shows an entry. */
  predicate InProfession(prof: Profession, item: OperatorInfo) {
    if prof.id == AllId then true
    else if prof.id == OthersId then item.subProf == NotChar1 || item.subProf == ""
    else Any(prof.sub, (s: SubProfession) => s.id == item.subProf)
  }

  /** The merged roster filtered by the selected profession. */
  function ProfFiltered(existed: seq<Operator>, roster: seq<OperatorInfo>, prof: Profession): seq<OperatorInfo> {
    Filter(Merged(existed, roster), (x: OperatorInfo) => InProfession(prof, x))
  }

  /** The tab of a profession that is neither 'all' nor 'others' shows the entries one
      of its sub-professions names. */
  lemma InProfessionNamed(prof: Profession, x: OperatorInfo)
    requires prof.id != AllId && prof.id != OthersId
    ensures InProfession(prof, x) <==> exists s :: s in prof.sub && s.id == x.subProf
  {
    if exists s :: s in prof.sub && s.id == x.subProf {
      var s :| s in prof.sub && s.id == x.subProf;
      var i :| 0 <= i < |prof.sub| && prof.sub[i] == s;
      assert prof.sub[i].id == x.subProf;
    }
  }

  /** 'all' keeps every entry; 'others' keeps those without a sub-profession or with
      'notchar1'; any other profession keeps exactly the entries one of its
      sub-professions names. Each kept entry occurs as often as in the merged roster,
      and the order of the merged roster is kept. */
  lemma ProfFilteredEntries(existed: seq<Operator>, roster: seq<OperatorInfo>, prof: Profession)
    ensures var m, r := Merged(existed, roster), ProfFiltered(existed, roster, prof);
            && Subsequence(r, m)
            && (prof.id == AllId ==> r == m)
            && (prof.id == OthersId ==>
                  && (forall x :: x in r <==> x in m && (x.subProf == NotChar1 || x.subProf == ""))
                  && forall x :: multiset(r)[x] == if x.subProf == NotChar1 || x.subProf == "" then multiset(m)[x] else 0)
            && (prof.id != AllId && prof.id != OthersId ==>
                  && (forall x :: x in r <==> x in m && exists s :: s in prof.sub && s.id == x.subProf)
                  && forall x :: multiset(r)[x] ==
                       if exists s :: s in prof.sub && s.id == x.subProf then multiset(m)[x] else 0)
  {
    var m, r := Merged(existed, roster), ProfFiltered(existed, roster, prof);
    var p := (x: OperatorInfo) => InProfession(prof, x);
    FilterSubsequence(m, p);
    if prof.id == AllId {
      FilterAll(m, p);
    } else if prof.id == OthersId {
      OthersFiltered(m, prof, r);
    } else {
      NamedFiltered(m, prof, r);
    }
  }

  lemma OthersFiltered(m: seq<OperatorInfo>, prof: Profession, r: seq<OperatorInfo>)
    requires prof.id == OthersId && r == Filter(m, (x: OperatorInfo) => InProfession(prof, x))
    ensures forall x :: x in r <==> x in m && (x.subProf == NotChar1 || x.subProf == "")
    ensures forall x :: multiset(r)[x] == if x.subProf == NotChar1 || x.subProf == "" then multiset(m)[x] else 0
  {
  }

  lemma NamedFiltered(m: seq<OperatorInfo>, prof: Profession, r: seq<OperatorInfo>)
    requires prof.id != AllId && prof.id != OthersId
    requires r == Filter(m, (x: OperatorInfo) => InProfession(prof, x))
    ensures forall x :: x in r <==> x in m && exists s :: s in prof.sub && s.id == x.subProf
    ensures forall x :: multiset(r)[x] == if exists s :: s in prof.sub && s.id == x.subProf then multiset(m)[x] else 0
  {
    forall x ensures InProfession(prof, x) <==> exists s :: s in prof.sub && s.id == x.subProf {
      InProfessionNamed(prof, x);
    }
  }

  /** `checkOperatorSelected`: the name belongs to an assigned operator or to a member
      of a group. */
  predicate Selected(existed: seq<Operator>, groups: seq<Group>, name: string) {
    Any(existed, (o: Operator) => o.name == name) || Any(Members(groups), (o: Operator) => o.name == name)
  }

  /** Every group's members, group after group. */
  function Members(groups: seq<Group>): seq<Operator> {
    if groups == [] then [] else groups[0].opers + Members(groups[1..])
  }

  lemma {:induction false} InMembers(groups: seq<Group>, o: Operator)
    ensures o in Members(groups) <==> exists g :: g in groups && o in g.opers
  {
    if groups != [] {
      InMembers(groups[1..], o);
      assert forall g :: g in groups[1..] ==> g in groups;
      assert forall g :: g in groups ==> g == groups[0] || g in groups[1..];
    }
  }

  /** A name is selected exactly when an assigned operator, or a member of some group,
      carries it. */
  lemma SelectedIff(existed: seq<Operator>, groups: seq<Group>, name: string)
    ensures Selected(existed, groups, name) <==>
              (exists o :: o in existed && o.name == name) ||
              (exists g, o :: g in groups && o in g.opers && o.name == name)
  {
    var direct := exists o :: o in existed && o.name == name;
    assert direct <==> Any(existed, (o: Operator) => o.name == name) by {
      if direct {
        var o :| o in existed && o.name == name;
        var i :| 0 <= i < |existed| && existed[i] == o;
        assert existed[i].name == name;
      }
    }
    var ms := Members(groups);
    var grouped := exists g, o :: g in groups && o in g.opers && o.name == name;
    if grouped {
      var g, o :| g in groups && o in g.opers && o.name == name;
      InMembers(groups, o);
      var i :| 0 <= i < |ms| && ms[i] == o;
      assert ms[i].name == name;
    }
    if Any(ms, (o: Operator) => o.name == name) {
      var i :| 0 <= i < |ms| && ms[i].name == name;
      InMembers(groups, ms[i]);
    }
  }

  /** The list filtered further by the selected sub-profession. */
  function SubProfFiltered(list: seq<OperatorInfo>, subProf: string, existed: seq<Operator>, groups: seq<Group>)
    : seq<OperatorInfo>
  {
    if subProf == AllId then list
    else if subProf == SelectedId then Filter(list, (x: OperatorInfo) => Selected(existed, groups, x.name))
    else Filter(list, (x: OperatorInfo) => x.subProf == subProf)
  }

  /** The second filter only drops entries: 'all' keeps the list, 'selected' keeps the
      selected names, any other id keeps the entries of that sub-profession; each kept
      entry occurs as often as in the list, in the list's order. */
  lemma SubProfFilteredEntries(list: seq<OperatorInfo>, subProf: string, existed: seq<Operator>, groups: seq<Group>)
    ensures var r := SubProfFiltered(list, subProf, existed, groups);
            && Subsequence(r, list)
            && (subProf == AllId ==> r == list)
            && (subProf == SelectedId ==>
                  && (forall x :: x in r <==> x in list && Selected(existed, groups, x.name))
                  && forall x :: multiset(r)[x] == if Selected(existed, groups, x.name) then multiset(list)[x] else 0)
            && (subProf != AllId && subProf != SelectedId ==>
                  && (forall x :: x in r <==> x in list && x.subProf == subProf)
                  && forall x :: multiset(r)[x] == if x.subProf == subProf then multiset(list)[x] else 0)
  {
    if subProf == AllId {
      PrefixSubsequence(list, list);
    } else if subProf == SelectedId {
      FilterSubsequence(list, (x: OperatorInfo) => Selected(existed, groups, x.name));
    } else {
      FilterSubsequence(list, (x: OperatorInfo) => x.subProf == subProf);
    }
  }

  // ---------------------------------------------------------------------------
  // Handlers

  /** `eventHandleProxy`. A click on an operator's box removes it when it is assigned
      directly, warns when it is only in a group, and submits it otherwise; a click on
      its skill submits it. */
  function HandleEvent(kind: OperatorEvent, existed: seq<Operator>, groups: seq<Group>, value: Operator): (c: Command)
    ensures kind == Skill ==> c == Submit(value, false)
    ensures kind == Box ==>
              && (c.Submit? <==> !Selected(existed, groups, value.name))
              && (c.WarnGrouped? <==> Selected(existed, groups, value.name) && IndexOfName(existed, value.name) == -1)
              && (c.RemoveOne? <==> IndexOfName(existed, value.name) != -1)
              && (c.Submit? ==> c.op == value && !c.fromSelectAll)
              && (c.RemoveOne? ==> c.index == IndexOfId(existed, value.id))
  {
    match kind
    case Box =>
      if Selected(existed, groups, value.name) then
        if Any(existed, (o: Operator) => o.name == value.name) then RemoveOne(IndexOfId(existed, value.id))
        else WarnGrouped
      else Submit(value, false)
    case Skill => Submit(value, false)
  }

  /** Clicking the box of an assigned operator removes that very operator, when the
      assigned operators' ids are distinct. */
  lemma BoxClickRemovesClicked(existed: seq<Operator>, groups: seq<Group>, k: nat)
    requires k < |existed|
    requires forall i, j :: 0 <= i < |existed| && 0 <= j < |existed| && existed[i].id == existed[j].id ==> i == j
    ensures HandleEvent(Box, existed, groups, existed[k]) == RemoveOne(k)
  {
    assert Any(existed, (o: Operator) => o.name == existed[k].name);
  }

  /** A warning leaves the assignment alone: it neither submits nor removes. */
  lemma WarningOnlyForGrouped(existed: seq<Operator>, groups: seq<Group>, value: Operator)
    requires HandleEvent(Box, existed, groups, value) == WarnGrouped
    ensures forall o :: o in existed ==> o.name != value.name
    ensures exists g, o :: g in groups && o in g.opers && o.name == value.name
  {
    SelectedIff(existed, groups, value.name);
  }

  /** `selectAll`: one submission per listed entry, in order. */
  method SelectAll(listed: seq<OperatorInfo>) returns (commands: seq<Command>)
    ensures |commands| == |listed|
    ensures forall i :: 0 <= i < |listed| ==> commands[i] == Submit(Operator(None, listed[i].name), true)
  {
    commands := [];
    for i := 0 to |listed|
      invariant |commands| == i
      invariant forall j :: 0 <= j < i ==> commands[j] == Submit(Operator(None, listed[j].name), true)
    {
      commands := commands + [Submit(Operator(None, listed[i].name), true)];
    }
  }

  /** `x` is the index of the first assigned operator named like some listed entry. */
  ghost predicate IsListedIndex(listed: seq<OperatorInfo>, existed: seq<Operator>, x: int) {
    exists i :: 0 <= i < |listed| && x == IndexOfName(existed, listed[i].name)
  }

  /** For each listed entry in turn, the index of the first assigned operator of that
      name, when there is one. */
  function FoundIndices(listed: seq<OperatorInfo>, existed: seq<Operator>): seq<int> {
    if listed == [] then []
    else
      var index := IndexOfName(existed, listed[|listed| - 1].name);
      FoundIndices(listed[..|listed| - 1], existed) + (if index != -1 then [index] else [])
  }

  /** `cancelAll`: the indices it hands to `removeOperator`, one for each listed entry
      that has an assigned operator of its name, in the order of the list. Members of
      groups are not touched. */
  method CancelAll(listed: seq<OperatorInfo>, existed: seq<Operator>) returns (indices: seq<int>)
    ensures indices == FoundIndices(listed, existed)
  {
    indices := [];
    for i := 0 to |listed|
      invariant indices == FoundIndices(listed[..i], existed)
    {
      var index := IndexOfName(existed, listed[i].name);
      assert listed[..i + 1][..i] == listed[..i];
      if index != -1 {
        indices := indices + [index];
      }
    }
    assert listed[..|listed|] == listed;
  }

  /** The indices cancel-all collects: no more than the listed entries, each within the
      assigned operators and found for a listed name, and one for every listed name
      that is assigned. */
  lemma FoundIndicesFacts(listed: seq<OperatorInfo>, existed: seq<Operator>)
    ensures var indices := FoundIndices(listed, existed);
            && |indices| <= |listed|
            && (forall k :: 0 <= k < |indices| ==> 0 <= indices[k] < |existed|)
            && (forall k :: 0 <= k < |indices| ==> IsListedIndex(listed, existed, indices[k]))
            && (forall i :: 0 <= i < |listed| && IndexOfName(existed, listed[i].name) != -1 ==>
                  IndexOfName(existed, listed[i].name) in indices)
  {
    FoundIndicesBounded(listed, existed);
    FoundIndicesListed(listed, existed);
    FoundIndicesComplete(listed, existed);
  }

  lemma {:induction false} FoundIndicesBounded(listed: seq<OperatorInfo>, existed: seq<Operator>)
    ensures var indices := FoundIndices(listed, existed);
            && |indices| <= |listed|
            && forall k :: 0 <= k < |indices| ==> 0 <= indices[k] < |existed|
  {
    if listed != [] {
      FoundIndicesBounded(listed[..|listed| - 1], existed);
    }
  }

  lemma {:induction false} FoundIndicesListed(listed: seq<OperatorInfo>, existed: seq<Operator>)
    ensures forall k :: 0 <= k < |FoundIndices(listed, existed)| ==>
              IsListedIndex(listed, existed, FoundIndices(listed, existed)[k])
  {
    if listed != [] {
      var n := |listed| - 1;
      var front := listed[..n];
      var found := FoundIndices(front, existed);
      var indices := FoundIndices(listed, existed);
      FoundIndicesListed(front, existed);
      assert indices == found + (if IndexOfName(existed, listed[n].name) != -1 then [IndexOfName(existed, listed[n].name)] else []);
      forall k | 0 <= k < |indices| ensures IsListedIndex(listed, existed, indices[k]) {
        if k < |found| {
          assert indices[k] == found[k];
          assert IsListedIndex(front, existed, found[k]);
          var i :| 0 <= i < |front| && found[k] == IndexOfName(existed, front[i].name);
          assert front[i] == listed[i];
        } else {
          assert indices[k] == IndexOfName(existed, listed[n].name);
        }
      }
    }
  }

  lemma {:induction false} FoundIndicesComplete(listed: seq<OperatorInfo>, existed: seq<Operator>)
    ensures forall i :: 0 <= i < |listed| && IndexOfName(existed, listed[i].name) != -1 ==>
              IndexOfName(existed, listed[i].name) in FoundIndices(listed, existed)
  {
    if listed != [] {
      var n := |listed| - 1;
      var front := listed[..n];
      var found := FoundIndices(front, existed);
      var indices := FoundIndices(listed, existed);
      FoundIndicesComplete(front, existed);
      assert indices == found + (if IndexOfName(existed, listed[n].name) != -1 then [IndexOfName(existed, listed[n].name)] else []);
      forall i | 0 <= i < |listed| && IndexOfName(existed, listed[i].name) != -1
        ensures IndexOfName(existed, listed[i].name) in indices
      {
        if i < n {
          assert front[i] == listed[i];
          assert IndexOfName(existed, front[i].name) in found;
        }
      }
    }
  }

  /** Each index collected by cancel-all points at an assigned operator whose name is
      listed, and is the first assigned operator of that name. */
  lemma CancelAllTargets(listed: seq<OperatorInfo>, existed: seq<Operator>, k: nat)
    requires k < |FoundIndices(listed, existed)|
    ensures var indices := FoundIndices(listed, existed);
            && 0 <= indices[k] < |existed|
            && (exists i :: 0 <= i < |listed| && existed[indices[k]].name == listed[i].name)
            && forall j :: 0 <= j < indices[k] ==> existed[j].name != existed[indices[k]].name
  {
    var indices := FoundIndices(listed, existed);
    FoundIndicesFacts(listed, existed);
    assert IsListedIndex(listed, existed, indices[k]);
    var i :| 0 <= i < |listed| && indices[k] == IndexOfName(existed, listed[i].name);
  }

  /** Two listed entries with one assigned name give that operator's index twice. */
  lemma CancelAllOnePerEntry()
    ensures FoundIndices([OperatorInfo("x", ""), OperatorInfo("x", "")], [Operator(None, "x")]) == [0, 0]
  {
    var existed := [Operator(None, "x")];
    assert IndexOfName(existed, "x") == 0;
    assert [OperatorInfo("x", ""), OperatorInfo("x", "")][..1] == [OperatorInfo("x", "")];
    assert [OperatorInfo("x", "")][..0] == [];
  }

  /** The cancel-all button is disabled when no listed operator is selected. */
  predicate CancelAllDisabled(listed: seq<OperatorInfo>, existed: seq<Operator>, groups: seq<Group>) {
    !Any(listed, (x: OperatorInfo) => Selected(existed, groups, x.name))
  }

  /** The select-all button is disabled when every listed operator is selected. */
  predicate SelectAllDisabled(listed: seq<OperatorInfo>, existed: seq<Operator>, groups: seq<Group>) {
    Every(listed, (x: OperatorInfo) => Selected(existed, groups, x.name))
  }

  /** Both buttons are disabled together exactly when the list is empty; on a
      non-empty list at least one of them can be used. */
  lemma BulkButtons(listed: seq<OperatorInfo>, existed: seq<Operator>, groups: seq<Group>)
    ensures CancelAllDisabled(listed, existed, groups) <==> forall i :: 0 <= i < |listed| ==> !Selected(existed, groups, listed[i].name)
    ensures SelectAllDisabled(listed, existed, groups) <==> forall i :: 0 <= i < |listed| ==> Selected(existed, groups, listed[i].name)
    ensures CancelAllDisabled(listed, existed, groups) && SelectAllDisabled(listed, existed, groups) <==> listed == []
  {
  }

  /** On the 'selected' sub-profession every listed operator is selected, so select-all
      is disabled there. */
  lemma SelectedTabSelectAllDisabled(list: seq<OperatorInfo>, existed: seq<Operator>, groups: seq<Group>)
    ensures SelectAllDisabled(SubProfFiltered(list, SelectedId, existed, groups), existed, groups)
  {
    var r := SubProfFiltered(list, SelectedId, existed, groups);
    SubProfFilteredEntries(list, SelectedId, existed, groups);
    forall i | 0 <= i < |r| ensures Selected(existed, groups, r[i].name) {
      assert r[i] in r;
    }
  }

  // ---------------------------------------------------------------------------
  // Pagination

  /** `lastIndex`: how many entries the pages shown so far can hold. */
  function LastIndex(pageIndex: nat): (r: nat)
    ensures r >= PageSize && r % PageSize == 0
  {
    (pageIndex + 1) * PageSize
  }

  function Min(a: int, b: int): int {
    if a <= b then a else b
  }

  /** `list.slice(0, lastIndex)`. */
  function Visible<T>(list: seq<T>, pageIndex: nat): (r: seq<T>)
    ensures |r| == Min(LastIndex(pageIndex), |list|)
    ensures r == list[..|r|]
  {
    if LastIndex(pageIndex) <= |list| then list[..LastIndex(pageIndex)] else list
  }

  /** "Show more" is offered while the list goes on past the shown pages. */
  predicate ShowMoreOffered(len: nat, pageIndex: nat) {
    LastIndex(pageIndex) < len
  }

  /** The count of entries "show more" announces. */
  function Remaining(len: nat, pageIndex: nat): int {
    len - LastIndex(pageIndex)
  }

  /** "Collapse" is offered once everything is shown and it spans more than a page. */
  predicate CollapseOffered(len: nat, pageIndex: nat) {
    LastIndex(pageIndex) >= len && len > PageSize
  }

  /** "Back to top" is enabled past the first page. */
  predicate BackToTopEnabled(pageIndex: nat) {
    LastIndex(pageIndex) > PageSize
  }

  /** "Show more" is offered exactly while entries are hidden, and the count it
      announces is the number of hidden entries. Otherwise every entry is shown, and
      "collapse" is offered exactly when those entries span more than a page. */
  lemma ShowMoreCounts<T>(list: seq<T>, pageIndex: nat)
    ensures ShowMoreOffered(|list|, pageIndex) <==> |Visible(list, pageIndex)| < |list|
    ensures ShowMoreOffered(|list|, pageIndex) ==> Remaining(|list|, pageIndex) == |list| - |Visible(list, pageIndex)| > 0
    ensures !ShowMoreOffered(|list|, pageIndex) ==> Visible(list, pageIndex) == list
    ensures CollapseOffered(|list|, pageIndex) <==> Visible(list, pageIndex) == list && |list| > PageSize
  {
  }

  /** The next page shows what was shown, followed by up to `PageSize` more entries. */
  lemma NextPage<T>(list: seq<T>, pageIndex: nat)
    ensures var shown, next := Visible(list, pageIndex), Visible(list, pageIndex + 1);
            && next[..|shown|] == shown
            && |next| == Min(|shown| + PageSize, |list|)
  {
  }

  /** The first page shows the first `PageSize` entries, and back-to-top is disabled
      exactly there. */
  lemma FirstPage<T>(list: seq<T>, pageIndex: nat)
    ensures Visible(list, 0) == list[..Min(PageSize, |list|)]
    ensures BackToTopEnabled(pageIndex) <==> pageIndex > 0
  {
  }

  // ---------------------------------------------------------------------------
  // The sheet's state

  class Sheet {
    /** The game's professions, as the profession tabs list them between 'all' and 'others'. */
    const professions: seq<Profession>
    var selectedProf: Profession
    var selectedSubProf: SubProfession
    var pageIndex: nat

    /** The selected tabs are among those offered: the profession among the profession
        tabs, the sub-profession among the selected profession's tabs. */
    predicate Valid()
      reads this
    {
      selectedProf in ProfessionChoices(professions) && selectedSubProf in SubProfessionChoices(selectedProf)
    }

    /** The sheet opens on the first profession tab ('all') and its first sub-profession
        tab ('all'), first page. */
    constructor (professions: seq<Profession>)
      ensures this.professions == professions
      ensures selectedProf == AllProfession && selectedSubProf == AllSubProfession && pageIndex == 0
      ensures Valid()
    {
      this.professions := professions;
      selectedProf := ProfessionChoices(professions)[0];
      selectedSubProf := SubProfessionChoices(ProfessionChoices(professions)[0])[0];
      pageIndex := 0;
    }

    /** The entries listed under the current filters. */
    function Listed(existed: seq<Operator>, groups: seq<Group>, roster: seq<OperatorInfo>): seq<OperatorInfo>
      reads this
    {
      SubProfFiltered(ProfFiltered(existed, roster, selectedProf), selectedSubProf.id, existed, groups)
    }

    /** The entries on the pages shown. */
    function Shown(existed: seq<Operator>, groups: seq<Group>, roster: seq<OperatorInfo>): (r: seq<OperatorInfo>)
      reads this
      ensures Subsequence(r, Merged(existed, roster))
    {
      var merged := Merged(existed, roster);
      var byProf := ProfFiltered(existed, roster, selectedProf);
      var listed := Listed(existed, groups, roster);
      ProfFilteredEntries(existed, roster, selectedProf);
      SubProfFilteredEntries(byProf, selectedSubProf.id, existed, groups);
      SubsequenceTransitive(listed, byProf, merged);
      PrefixSubsequence(Visible(listed, pageIndex), listed);
      SubsequenceTransitive(Visible(listed, pageIndex), listed, merged);
      Visible(listed, pageIndex)
    }

    /** A click on a profession selects it and puts the sub-profession back to 'all';
        when either filter changes, pagination starts over. */
    method ChooseProfession(prof: Profession)
      requires Valid() && prof in ProfessionChoices(professions)
      modifies this
      ensures Valid()
      ensures selectedProf == prof && selectedSubProf == AllSubProfession
      ensures pageIndex == if prof == old(selectedProf) && old(selectedSubProf) == AllSubProfession then old(pageIndex) else 0
    {
      var changed := prof != selectedProf || selectedSubProf != AllSubProfession;
      selectedProf := prof;
      selectedSubProf := AllSubProfession;
      if changed {
        ResetPagination();
      }
    }

    /** A click on a sub-profession selects it; when it changes, pagination starts over. */
    method ChooseSubProfession(sub: SubProfession)
      requires Valid() && sub in SubProfessionChoices(selectedProf)
      modifies this
      ensures Valid()
      ensures selectedProf == old(selectedProf) && selectedSubProf == sub
      ensures pageIndex == if sub == old(selectedSubProf) then old(pageIndex) else 0
    {
      var changed := sub != selectedSubProf;
      selectedSubProf := sub;
      if changed {
        ResetPagination();
      }
    }

    /** "Show more": one more page. */
    method ShowMore()
      modifies this
      ensures old(Valid()) ==> Valid()
      ensures selectedProf == old(selectedProf) && selectedSubProf == old(selectedSubProf)
      ensures pageIndex == old(pageIndex) + 1
    {
      pageIndex := pageIndex + 1;
    }

    /** `resetPaginationState`: back to the first page ("back to top", "collapse"). */
    method ResetPagination()
      modifies this
      ensures old(Valid()) ==> Valid()
      ensures selectedProf == old(selectedProf) && selectedSubProf == old(selectedSubProf)
      ensures pageIndex == 0
    {
      pageIndex := 0;
    }
  }

  lemma {:induction false} SubsequenceTransitive<T>(a: seq<T>, b: seq<T>, c: seq<T>)
    requires Subsequence(a, b) && Subsequence(b, c)
    ensures Subsequence(a, c)
    decreases |c|
  {
    if a != [] && c != [] {
      if b[0] == c[0] && Subsequence(b[1..], c[1..]) {
        if a[0] == b[0] && Subsequence(a[1..], b[1..]) {
          SubsequenceTransitive(a[1..], b[1..], c[1..]);
        } else {
          SubsequenceTransitive(a, b[1..], c[1..]);
        }
      } else {
        SubsequenceTransitive(a, b, c[1..]);
      }
    }
  }

  lemma {:induction false} PrefixSubsequence<T>(a: seq<T>, b: seq<T>)
    requires |a| <= |b| && a == b[..|a|]
    ensures Subsequence(a, b)
    decreases |b|
  {
    if a != [] {
      PrefixSubsequence(a[1..], b[1..]);
    }
  }
}
