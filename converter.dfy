/** The editor's document converter (src/components/editor/converter.ts):
    import into the editable form, export to MAA's snake-cased form, and the
    details back-fill applied before validation. */
module Converter {
  import opened Json
  import opened UniqueId
  import opened KeyRenaming

  const ActionsKey := "actions"
  const OpersKey := "opers"
  const GroupsKey := "groups"
  const IdKey := "_id"
  const LeakedIdKey := "id"
  const TypeKey := "type"
  const DirectionKey := "direction"
  const MinimumRequiredKey := "minimumRequired"
  const DocKey := "doc"
  const TitleKey := "title"
  const DetailsKey := "details"

  /** What `findActionType` answers for a type it does not recognise. */
  const UnknownType := "Unknown"
  const DeployType := "Deploy"
  /** `MinimumRequired.V4_0_0`. */
  const V4_0_0 := "v4.0.0"

  /** A document the caller holds by reference. */
  class Document {
    var root: Value

    constructor (root: Value)
      ensures this.root == root
    {
      this.root := root;
    }
  }

  // ---------------------------------------------------------------------------
  // The shape of an operation document

  /** The elements of `v[k]` when it is a list, and none otherwise. */
  function ListAt(v: Value, k: string): seq<Value> {
    match Field(v, k)
    case Some(Arr(xs)) => xs
    case _ => []
  }

  predicate IsList(v: Value, k: string) {
    Field(v, k).Some? && Field(v, k).value.Arr?
  }

  /** `v[k]` is absent, null or a list: `compact` drops the first two. */
  predicate OptionalList(v: Value, k: string) {
    Field(v, k) == None || Field(v, k) == Some(Null) || IsList(v, k)
  }

  /** The list `v[k]` with its elements replaced by `xs`; anything else stays as it is. */
  function WithList(v: Value, k: string, xs: seq<Value>): Value {
    if IsList(v, k) then SetField(v, k, Arr(xs)) else v
  }

  /** `b` agrees with `a` on every key outside `except`, presence included. */
  ghost predicate Keeps(a: Value, b: Value, except: set<string>) {
    forall k :: k !in except ==> Field(b, k) == Field(a, k)
  }

  /** Replacing the list `v[k]`: it is replaced when it is a list, and stays as it was
      otherwise (where it reads as empty). */
  lemma WithListAt(v: Value, k: string, xs: seq<Value>)
    requires IsList(v, k) || xs == []
    ensures var r := WithList(v, k, xs);
            && r.Obj? == v.Obj?
            && IsList(r, k) == IsList(v, k)
            && ListAt(r, k) == xs
            && (!IsList(v, k) ==> Field(r, k) == Field(v, k))
  {
  }

  /** Replacing the list `v[k]` leaves every other field alone. */
  lemma WithListElsewhere(v: Value, k: string, xs: seq<Value>, other: string)
    requires other != k
    ensures Field(WithList(v, k, xs), other) == Field(v, other)
  {
  }

  lemma WithListKeeps(v: Value, k: string, xs: seq<Value>)
    ensures Keeps(v, WithList(v, k, xs), {k})
  {
  }

  lemma KeepsTransitive(a: Value, b: Value, c: Value, e1: set<string>, e2: set<string>)
    requires Keeps(a, b, e1) && Keeps(b, c, e2)
    ensures Keeps(a, c, e1 + e2)
  {
  }

  predicate AllObjects(xs: seq<Value>) {
    forall i :: 0 <= i < |xs| ==> xs[i].Obj?
  }

  /** Groups whose members can receive ids. */
  predicate EditableGroups(gs: seq<Value>) {
    forall i :: 0 <= i < |gs| ==>
      gs[i].Obj? && OptionalList(gs[i], OpersKey) && AllObjects(ListAt(gs[i], OpersKey))
  }

  /** A `CopilotDocV1.Operation`, as far as `toEditableOperation` relies on it:
      `actions` is a list of objects; `opers`, `groups` and each group's `opers`
      are optional lists of objects. */
  predicate EditableShape(op: Value) {
    && op.Obj?
    && IsList(op, ActionsKey) && AllObjects(ListAt(op, ActionsKey))
    && OptionalList(op, OpersKey) && AllObjects(ListAt(op, OpersKey))
    && OptionalList(op, GroupsKey) && EditableGroups(ListAt(op, GroupsKey))
  }

  /** The members of every group, group after group. */
  function MemberItems(groups: seq<Value>): seq<Value> {
    if groups == [] then [] else ListAt(groups[0], OpersKey) + MemberItems(groups[1..])
  }

  /** The items `compact([actions, opers, groups, groups.map(g => g.opers)].flat(2))` lists,
      in the order the converter visits them. */
  function Items(op: Value): seq<Value> {
    ListAt(op, ActionsKey) + ListAt(op, OpersKey) + ListAt(op, GroupsKey) + MemberItems(ListAt(op, GroupsKey))
  }

  // ---------------------------------------------------------------------------
  // toEditableOperation

  /** `item._id = uniqueId()` when the counter's new value is `n`. */
  function WithId(item: Value, n: nat): Value {
    if item.Obj? then SetField(item, IdKey, Str(DecimalString(n))) else item
  }

  /** A list after `item._id = uniqueId()` on each item, the counter's next value being `first`. */
  function Numbered(items: seq<Value>, first: nat): (r: seq<Value>)
    ensures |r| == |items|
  {
    seq(|items|, i requires 0 <= i < |items| => WithId(items[i], first + i))
  }

  lemma NumberedAppend(a: seq<Value>, b: seq<Value>, first: nat)
    ensures Numbered(a + b, first) == Numbered(a, first) + Numbered(b, first + |a|)
  {
  }

  /** One group after its members received ids from `first` on. */
  function NumberedGroupMembers(g: Value, first: nat): Value {
    WithList(g, OpersKey, Numbered(ListAt(g, OpersKey), first))
  }

  /** Every group's members numbered, group after group, from `first`. */
  function NumberedMembers(groups: seq<Value>, first: nat): (r: seq<Value>)
    ensures |r| == |groups|
  {
    if groups == [] then []
    else [NumberedGroupMembers(groups[0], first)]
         + NumberedMembers(groups[1..], first + |ListAt(groups[0], OpersKey)|)
  }

  /** One action after the normalisation pass. */
  function Normalised(action: Value, findActionType: Option<Value> -> string,
                      findOperatorDirection: Option<Value> -> Option<string>): Value
  {
    if !action.Obj? then action else
    var t := findActionType(Field(action, TypeKey));
    var typed := if t != UnknownType then SetField(action, TypeKey, Str(t)) else action;
    if t == DeployType then
      match findOperatorDirection(Field(typed, DirectionKey))
      case Some(d) => SetField(typed, DirectionKey, Str(d))
      case None => typed
    else typed
  }

  function NormalisedAll(actions: seq<Value>, findActionType: Option<Value> -> string,
                         findOperatorDirection: Option<Value> -> Option<string>): (r: seq<Value>)
    ensures |r| == |actions|
  {
    seq(|actions|, i requires 0 <= i < |actions| => Normalised(actions[i], findActionType, findOperatorDirection))
  }

  /** The document after the id pass, the counter's next value being `first`: the actions,
      the operators, the groups, then each group's members numbered in turn. */
  function IdsAssigned(op: Value, first: nat): Value {
    var actions := ListAt(op, ActionsKey);
    var opers := ListAt(op, OpersKey);
    var groups := ListAt(op, GroupsKey);
    var groupFirst := first + |actions| + |opers|;
    var withActions := WithList(op, ActionsKey, Numbered(actions, first));
    var withOpers := WithList(withActions, OpersKey, Numbered(opers, first + |actions|));
    WithList(withOpers, GroupsKey, NumberedMembers(Numbered(groups, groupFirst), groupFirst + |groups|))
  }

  /** What `toEditableOperation` returns when the id counter's next value is `first`:
      the document after the id pass, then with every action normalised. */
  function Editable(op: Value, first: nat, findActionType: Option<Value> -> string,
                    findOperatorDirection: Option<Value> -> Option<string>): Value
  {
    var numbered := IdsAssigned(op, first);
    WithList(numbered, ActionsKey, NormalisedAll(ListAt(numbered, ActionsKey), findActionType, findOperatorDirection))
  }

  /** `item._id = uniqueId()` for each item of one list, in order. */
  method AssignIds(items: seq<Value>, ids: IdCounter) returns (numbered: seq<Value>)
    requires AllObjects(items)
    modifies ids
    ensures ids.counter == old(ids.counter) + |items|
    ensures numbered == Numbered(items, old(ids.counter) + 1)
  {
    numbered := items;
    var i := 0;
    while i < |items|
      invariant 0 <= i <= |items| && |numbered| == |items|
      invariant ids.counter == old(ids.counter) + i
      invariant forall j :: 0 <= j < i ==> numbered[j] == WithId(items[j], old(ids.counter) + 1 + j)
      invariant forall j :: i <= j < |items| ==> numbered[j] == items[j]
    {
      var id := ids.UniqueId();
      numbered := numbered[i := SetField(numbered[i], IdKey, Str(id))];
      i := i + 1;
    }
  }

  /** The id pass over one group's members. */
  method AssignGroupMemberIds(group: Value, ids: IdCounter) returns (numbered: Value)
    requires AllObjects(ListAt(group, OpersKey))
    modifies ids
    ensures ids.counter == old(ids.counter) + |ListAt(group, OpersKey)|
    ensures numbered == NumberedGroupMembers(group, old(ids.counter) + 1)
  {
    numbered := group;
    if IsList(group, OpersKey) {
      var members := AssignIds(ListAt(group, OpersKey), ids);
      numbered := SetField(group, OpersKey, Arr(members));
    }
  }

  /** The id pass over the members has numbered the first `j` groups, giving `numbered`,
      and the later groups' members are to be numbered from `next` on. */
  ghost predicate MembersNumberedUpTo(groups: seq<Value>, first: nat, j: nat, next: nat, numbered: seq<Value>)
    requires j <= |groups|
  {
    && NumberedMembers(groups, first) == numbered + NumberedMembers(groups[j..], next)
    && first + |MemberItems(groups)| == next + |MemberItems(groups[j..])|
  }

  /** One step of the id pass over the members: group `j`'s members numbered from `next`
      on, the later groups' members from `after` on. */
  lemma NumberedMembersStep(groups: seq<Value>, first: nat, j: nat, next: nat, numbered: seq<Value>, group: Value)
    requires j < |groups| && MembersNumberedUpTo(groups, first, j, next, numbered)
    requires group == NumberedGroupMembers(groups[j], next)
    ensures MembersNumberedUpTo(groups, first, j + 1, next + |ListAt(groups[j], OpersKey)|, numbered + [group])
  {
    var after := next + |ListAt(groups[j], OpersKey)|;
    assert groups[j..][1..] == groups[j + 1..];
    assert NumberedMembers(groups[j..], next) == [group] + NumberedMembers(groups[j + 1..], after);
  }

  /** The id pass over the groups' members, group after group. */
  method AssignMemberIds(groups: seq<Value>, ids: IdCounter) returns (numbered: seq<Value>)
    requires EditableGroups(groups)
    modifies ids
    ensures ids.counter == old(ids.counter) + |MemberItems(groups)|
    ensures numbered == NumberedMembers(groups, old(ids.counter) + 1)
  {
    ghost var first: nat := ids.counter + 1;
    numbered := [];
    var j: nat := 0;
    while j < |groups|
      invariant j <= |groups|
      invariant MembersNumberedUpTo(groups, first, j, ids.counter + 1, numbered)
    {
      ghost var next: nat := ids.counter + 1;
      var group := AssignGroupMemberIds(groups[j], ids);
      NumberedMembersStep(groups, first, j, next, numbered, group);
      numbered := numbered + [group];
      j := j + 1;
    }
    assert groups[j..] == [];
  }

  /** The normalisation pass over the actions. */
  method NormaliseActions(actions: seq<Value>, findActionType: Option<Value> -> string,
                          findOperatorDirection: Option<Value> -> Option<string>)
    returns (normalised: seq<Value>)
    requires AllObjects(actions)
    ensures normalised == NormalisedAll(actions, findActionType, findOperatorDirection)
  {
    normalised := actions;
    var i := 0;
    while i < |actions|
      invariant 0 <= i <= |actions| == |normalised|
      invariant forall k :: 0 <= k < i ==> normalised[k] == Normalised(actions[k], findActionType, findOperatorDirection)
      invariant forall k :: i <= k < |actions| ==> normalised[k] == actions[k]
    {
      var action := normalised[i];
      var t := findActionType(Field(action, TypeKey));
      // e.g. '部署' becomes 'Deploy'
      if t != UnknownType {
        action := SetField(action, TypeKey, Str(t));
      }
      if t == DeployType {
        // e.g. '上' becomes 'Up'
        var direction := findOperatorDirection(Field(action, DirectionKey));
        if direction.Some? {
          action := SetField(action, DirectionKey, Str(direction.value));
        }
      }
      normalised := normalised[i := action];
      i := i + 1;
    }
  }

  /** Numbering the groups themselves leaves their members as they are. */
  lemma {:induction false} MemberItemsNumbered(groups: seq<Value>, first: nat)
    ensures MemberItems(Numbered(groups, first)) == MemberItems(groups)
  {
    if groups != [] {
      assert Numbered(groups, first)[1..] == Numbered(groups[1..], first + 1);
      MemberItemsNumbered(groups[1..], first + 1);
    }
  }

  /** Numbering the groups themselves keeps them editable, with the same members. */
  lemma NumberedGroupsEditable(groups: seq<Value>, first: nat, numbered: seq<Value>)
    requires EditableGroups(groups) && numbered == Numbered(groups, first)
    ensures EditableGroups(numbered) && MemberItems(numbered) == MemberItems(groups)
  {
    forall j | 0 <= j < |numbered|
      ensures numbered[j].Obj? && OptionalList(numbered[j], OpersKey) && AllObjects(ListAt(numbered[j], OpersKey))
    {
      WithIdKeepsOthers(groups[j], first + j, OpersKey);
    }
    MemberItemsNumbered(groups, first);
  }

  /** Giving an object an id keeps it an object and touches no other field. */
  lemma WithIdKeepsOthers(x: Value, n: nat, k: string)
    requires x.Obj? && k != IdKey
    ensures WithId(x, n).Obj? && Field(WithId(x, n), k) == Field(x, k)
  {
  }

  /** The id pass over `v[k]` when it is a list of objects. */
  method AssignListIds(v: Value, k: string, ids: IdCounter) returns (r: Value)
    requires AllObjects(ListAt(v, k))
    modifies ids
    ensures ids.counter == old(ids.counter) + |ListAt(v, k)|
    ensures r == WithList(v, k, Numbered(ListAt(v, k), old(ids.counter) + 1))
  {
    r := v;
    if IsList(v, k) {
      var items := AssignIds(ListAt(v, k), ids);
      r := SetField(v, k, Arr(items));
    }
  }

  /** The id pass over the groups, then over their members. */
  method AssignGroupIds(v: Value, ids: IdCounter) returns (r: Value)
    requires EditableGroups(ListAt(v, GroupsKey))
    modifies ids
    ensures ids.counter == old(ids.counter) + |ListAt(v, GroupsKey)| + |MemberItems(ListAt(v, GroupsKey))|
    ensures r == WithList(v, GroupsKey, NumberedMembers(Numbered(ListAt(v, GroupsKey), old(ids.counter) + 1),
                                                        old(ids.counter) + 1 + |ListAt(v, GroupsKey)|))
  {
    r := v;
    if IsList(v, GroupsKey) {
      var groups := AssignIds(ListAt(v, GroupsKey), ids);
      NumberedGroupsEditable(ListAt(v, GroupsKey), old(ids.counter) + 1, groups);
      groups := AssignMemberIds(groups, ids);
      r := SetField(v, GroupsKey, Arr(groups));
    }
  }

  /** The id pass: every action, operator, group and group member receives `_id = uniqueId()`,
      in that order. */
  method GenerateIds(op: Value, ids: IdCounter) returns (operation: Value)
    requires EditableShape(op)
    modifies ids
    ensures ids.counter == old(ids.counter) + |Items(op)|
    ensures operation == IdsAssigned(op, old(ids.counter) + 1)
  {
    operation := AssignListIds(op, ActionsKey, ids);
    operation := AssignListIds(operation, OpersKey, ids);
    operation := AssignGroupIds(operation, ids);
  }

  /** `toEditableOperation`: works on a copy, so the caller's document is left as it was. */
  method ToEditableOperation(source: Document, ids: IdCounter, findActionType: Option<Value> -> string,
                             findOperatorDirection: Option<Value> -> Option<string>)
    returns (operation: Value)
    requires EditableShape(source.root)
    modifies ids
    ensures source.root == old(source.root)
    ensures ids.counter == old(ids.counter) + |Items(source.root)|
    ensures operation == Editable(source.root, old(ids.counter) + 1, findActionType, findOperatorDirection)
  {
    // JSON.parse(JSON.stringify(operation)): a copy the caller cannot see
    operation := source.root;

    // generate ids
    operation := GenerateIds(operation, ids);

    // normalise each action's type, and the direction of a deployment
    var actions := NormaliseActions(ListAt(operation, ActionsKey), findActionType, findOperatorDirection);
    operation := SetField(operation, ActionsKey, Arr(actions));
  }

  // ---------------------------------------------------------------------------
  // What toEditableOperation promises

  /** The actions after the id pass. */
  lemma IdsAssignedActions(op: Value, first: nat)
    requires op.Obj?
    ensures var r := IdsAssigned(op, first);
            && IsList(r, ActionsKey) == IsList(op, ActionsKey)
            && ListAt(r, ActionsKey) == Numbered(ListAt(op, ActionsKey), first)
  {
    var actions, opers, groups := ListAt(op, ActionsKey), ListAt(op, OpersKey), ListAt(op, GroupsKey);
    var groupFirst := first + |actions| + |opers|;
    var numberedActions := Numbered(actions, first);
    var numberedOpers := Numbered(opers, first + |actions|);
    var numberedGroups := NumberedMembers(Numbered(groups, groupFirst), groupFirst + |groups|);
    var withActions := WithList(op, ActionsKey, numberedActions);
    var withOpers := WithList(withActions, OpersKey, numberedOpers);
    assert WithList(withOpers, GroupsKey, numberedGroups) == IdsAssigned(op, first);
    WithListAt(op, ActionsKey, numberedActions);
    WithListElsewhere(withActions, OpersKey, numberedOpers, ActionsKey);
    WithListElsewhere(withOpers, GroupsKey, numberedGroups, ActionsKey);
  }

  /** The operators after the id pass. */
  lemma IdsAssignedOpers(op: Value, first: nat)
    requires op.Obj?
    ensures var r := IdsAssigned(op, first);
            && IsList(r, OpersKey) == IsList(op, OpersKey)
            && ListAt(r, OpersKey) == Numbered(ListAt(op, OpersKey), first + |ListAt(op, ActionsKey)|)
  {
    var actions, opers, groups := ListAt(op, ActionsKey), ListAt(op, OpersKey), ListAt(op, GroupsKey);
    var groupFirst := first + |actions| + |opers|;
    var numberedActions := Numbered(actions, first);
    var numberedOpers := Numbered(opers, first + |actions|);
    var numberedGroups := NumberedMembers(Numbered(groups, groupFirst), groupFirst + |groups|);
    var withActions := WithList(op, ActionsKey, numberedActions);
    var withOpers := WithList(withActions, OpersKey, numberedOpers);
    assert WithList(withOpers, GroupsKey, numberedGroups) == IdsAssigned(op, first);
    WithListElsewhere(op, ActionsKey, numberedActions, OpersKey);
    WithListAt(withActions, OpersKey, numberedOpers);
    WithListElsewhere(withOpers, GroupsKey, numberedGroups, OpersKey);
  }

  /** The groups after the id pass. */
  lemma IdsAssignedGroups(op: Value, first: nat)
    requires op.Obj?
    ensures var r := IdsAssigned(op, first);
            var groups := ListAt(op, GroupsKey);
            var groupFirst := first + |ListAt(op, ActionsKey)| + |ListAt(op, OpersKey)|;
            && r.Obj?
            && IsList(r, GroupsKey) == IsList(op, GroupsKey)
            && ListAt(r, GroupsKey) == NumberedMembers(Numbered(groups, groupFirst), groupFirst + |groups|)
  {
    var actions, opers, groups := ListAt(op, ActionsKey), ListAt(op, OpersKey), ListAt(op, GroupsKey);
    var groupFirst := first + |actions| + |opers|;
    var numberedActions := Numbered(actions, first);
    var numberedOpers := Numbered(opers, first + |actions|);
    var numberedGroups := NumberedMembers(Numbered(groups, groupFirst), groupFirst + |groups|);
    var withActions := WithList(op, ActionsKey, numberedActions);
    var withOpers := WithList(withActions, OpersKey, numberedOpers);
    assert WithList(withOpers, GroupsKey, numberedGroups) == IdsAssigned(op, first);
    WithListElsewhere(op, ActionsKey, numberedActions, GroupsKey);
    WithListElsewhere(withActions, OpersKey, numberedOpers, GroupsKey);
    WithListAt(withOpers, GroupsKey, numberedGroups);
  }

  /** The document after the id pass, list by list. */
  lemma IdsAssignedLists(op: Value, first: nat)
    requires op.Obj?
    ensures var r := IdsAssigned(op, first);
            var actions, opers, groups := ListAt(op, ActionsKey), ListAt(op, OpersKey), ListAt(op, GroupsKey);
            var groupFirst := first + |actions| + |opers|;
            && r.Obj?
            && IsList(r, ActionsKey) == IsList(op, ActionsKey)
            && IsList(r, OpersKey) == IsList(op, OpersKey)
            && IsList(r, GroupsKey) == IsList(op, GroupsKey)
            && ListAt(r, ActionsKey) == Numbered(actions, first)
            && ListAt(r, OpersKey) == Numbered(opers, first + |actions|)
            && ListAt(r, GroupsKey) == NumberedMembers(Numbered(groups, groupFirst), groupFirst + |groups|)
  {
    IdsAssignedActions(op, first);
    IdsAssignedOpers(op, first);
    IdsAssignedGroups(op, first);
  }

  /** The id pass changes nothing but the three lists, and leaves a field that is not a
      list as it was. */
  lemma IdsAssignedKeeps(op: Value, first: nat)
    ensures var r := IdsAssigned(op, first);
            && Keeps(op, r, {ActionsKey, OpersKey, GroupsKey})
            && (!IsList(op, OpersKey) ==> Field(r, OpersKey) == Field(op, OpersKey))
            && (!IsList(op, GroupsKey) ==> Field(r, GroupsKey) == Field(op, GroupsKey))
  {
    var actions, opers, groups := ListAt(op, ActionsKey), ListAt(op, OpersKey), ListAt(op, GroupsKey);
    var groupFirst := first + |actions| + |opers|;
    var numberedActions := Numbered(actions, first);
    var numberedOpers := Numbered(opers, first + |actions|);
    var numberedGroups := NumberedMembers(Numbered(groups, groupFirst), groupFirst + |groups|);
    var withActions := WithList(op, ActionsKey, numberedActions);
    var withOpers := WithList(withActions, OpersKey, numberedOpers);
    var r := WithList(withOpers, GroupsKey, numberedGroups);
    assert r == IdsAssigned(op, first);
    WithListElsewhere(op, ActionsKey, numberedActions, OpersKey);
    WithListElsewhere(op, ActionsKey, numberedActions, GroupsKey);
    WithListElsewhere(withActions, OpersKey, numberedOpers, GroupsKey);
    WithListKeeps(op, ActionsKey, numberedActions);
    WithListKeeps(withActions, OpersKey, numberedOpers);
    WithListKeeps(withOpers, GroupsKey, numberedGroups);
    KeepsTransitive(op, withActions, withOpers, {ActionsKey}, {OpersKey});
    KeepsTransitive(op, withOpers, r, {ActionsKey} + {OpersKey}, {GroupsKey});
    assert {ActionsKey} + {OpersKey} + {GroupsKey} == {ActionsKey, OpersKey, GroupsKey};
  }

  /** The editable document, list by list: the id pass, then the actions normalised. */
  lemma EditableListsKept(op: Value, first: nat, findActionType: Option<Value> -> string,
                          findOperatorDirection: Option<Value> -> Option<string>)
    requires EditableShape(op)
    ensures var r := Editable(op, first, findActionType, findOperatorDirection);
            var n := IdsAssigned(op, first);
            && r.Obj? && Keeps(n, r, {ActionsKey})
            && IsList(r, ActionsKey)
            && ListAt(r, ActionsKey) == NormalisedAll(ListAt(n, ActionsKey), findActionType, findOperatorDirection)
            && Field(r, OpersKey) == Field(n, OpersKey)
            && Field(r, GroupsKey) == Field(n, GroupsKey)
  {
    var n := IdsAssigned(op, first);
    var actions := NormalisedAll(ListAt(n, ActionsKey), findActionType, findOperatorDirection);
    IdsAssignedLists(op, first);
    WithListAt(n, ActionsKey, actions);
    WithListElsewhere(n, ActionsKey, actions, OpersKey);
    WithListElsewhere(n, ActionsKey, actions, GroupsKey);
    WithListKeeps(n, ActionsKey, actions);
  }

  /** The lists of the editable document. */
  lemma EditableLists(op: Value, first: nat, findActionType: Option<Value> -> string,
                      findOperatorDirection: Option<Value> -> Option<string>)
    requires EditableShape(op)
    ensures var r := Editable(op, first, findActionType, findOperatorDirection);
            var actions, opers, groups := ListAt(op, ActionsKey), ListAt(op, OpersKey), ListAt(op, GroupsKey);
            var groupFirst := first + |actions| + |opers|;
            && ListAt(r, ActionsKey) == NormalisedAll(Numbered(actions, first), findActionType, findOperatorDirection)
            && ListAt(r, OpersKey) == Numbered(opers, first + |actions|)
            && ListAt(r, GroupsKey) == NumberedMembers(Numbered(groups, groupFirst), groupFirst + |groups|)
  {
    IdsAssignedLists(op, first);
    EditableListsKept(op, first, findActionType, findOperatorDirection);
  }

  /** Group `j` after its members were numbered from `first` on. */
  lemma {:induction false} NumberedMembersAt(groups: seq<Value>, first: nat, j: nat)
    requires j < |groups|
    ensures NumberedMembers(groups, first)[j] == NumberedGroupMembers(groups[j], first + |MemberItems(groups[..j])|)
  {
    if j > 0 {
      NumberedMembersAt(groups[1..], first + |ListAt(groups[0], OpersKey)|, j - 1);
      assert groups[1..][j - 1] == groups[j];
      assert groups[..j][1..] == groups[1..][..j - 1];
    }
  }

  /** Numbering a group's members changes its member list to the numbered members. */
  lemma NumberedGroupMembersList(g: Value, first: nat)
    ensures ListAt(NumberedGroupMembers(g, first), OpersKey) == Numbered(ListAt(g, OpersKey), first)
  {
    WithListAt(g, OpersKey, Numbered(ListAt(g, OpersKey), first));
  }

  /** The members of the numbered groups are the members, numbered in visit order. */
  lemma {:induction false} MembersOfNumbered(groups: seq<Value>, first: nat)
    ensures MemberItems(NumberedMembers(groups, first)) == Numbered(MemberItems(groups), first)
  {
    if groups != [] {
      var g, rest := groups[0], groups[1..];
      var count := |ListAt(g, OpersKey)|;
      var numbered := NumberedMembers(groups, first);
      var numberedRest := NumberedMembers(rest, first + count);
      assert numbered[0] == NumberedGroupMembers(g, first) && numbered[1..] == numberedRest;
      MembersOfNumbered(rest, first + count);
      NumberedGroupMembersList(g, first);
      NumberedAppend(ListAt(g, OpersKey), MemberItems(rest), first);
    }
  }

  /** The items of `xs` carry the ids drawn from `first` on, in order. */
  ghost predicate IdsFrom(xs: seq<Value>, first: nat) {
    forall i :: 0 <= i < |xs| ==> Field(xs[i], IdKey) == Some(Str(DecimalString(first + i)))
  }

  lemma IdsFromAppend(xs: seq<Value>, ys: seq<Value>, first: nat)
    requires IdsFrom(xs, first) && IdsFrom(ys, first + |xs|)
    ensures IdsFrom(xs + ys, first)
  {
    forall i | 0 <= i < |xs + ys| ensures Field((xs + ys)[i], IdKey) == Some(Str(DecimalString(first + i))) {
      if i >= |xs| {
        assert (xs + ys)[i] == ys[i - |xs|];
      }
    }
  }

  lemma IdsFromAppend4(a: seq<Value>, b: seq<Value>, c: seq<Value>, d: seq<Value>, first: nat)
    requires IdsFrom(a, first) && IdsFrom(b, first + |a|)
    requires IdsFrom(c, first + |a| + |b|) && IdsFrom(d, first + |a| + |b| + |c|)
    ensures IdsFrom(a + b + c + d, first)
  {
    IdsFromAppend(a, b, first);
    IdsFromAppend(a + b, c, first);
    IdsFromAppend(a + b + c, d, first);
  }

  /** Ids drawn one after the other are pairwise distinct. */
  lemma IdsFromDistinct(xs: seq<Value>, first: nat)
    requires IdsFrom(xs, first)
    ensures forall i, j :: 0 <= i < j < |xs| ==> Field(xs[i], IdKey) != Field(xs[j], IdKey)
  {
    forall i, j | 0 <= i < j < |xs| ensures Field(xs[i], IdKey) != Field(xs[j], IdKey) {
      DecimalStringInjective(first + i, first + j);
    }
  }

  lemma IdsOfNumbered(items: seq<Value>, first: nat, numbered: seq<Value>)
    requires AllObjects(items) && numbered == Numbered(items, first)
    ensures IdsFrom(numbered, first) && |numbered| == |items|
  {
  }

  lemma IdsOfNormalised(actions: seq<Value>, first: nat, findActionType: Option<Value> -> string,
                        findOperatorDirection: Option<Value> -> Option<string>, normalised: seq<Value>)
    requires IdsFrom(actions, first) && normalised == NormalisedAll(actions, findActionType, findOperatorDirection)
    ensures IdsFrom(normalised, first) && |normalised| == |actions|
  {
  }

  lemma IdsOfNumberedMembers(groups: seq<Value>, first: nat, memberFirst: nat, numbered: seq<Value>)
    requires IdsFrom(groups, first) && numbered == NumberedMembers(groups, memberFirst)
    ensures IdsFrom(numbered, first)
  {
    forall j | 0 <= j < |groups| ensures Field(numbered[j], IdKey) == Some(Str(DecimalString(first + j))) {
      NumberedMembersAt(groups, memberFirst, j);
    }
  }

  /** `AllObjects` of the members of every group. */
  lemma {:induction false} MembersAreObjects(groups: seq<Value>)
    requires EditableGroups(groups)
    ensures AllObjects(MemberItems(groups))
  {
    if groups != [] {
      MembersAreObjects(groups[1..]);
    }
  }

  /** The members of the groups numbered from `memberFirst` on, as `Numbered` gives them. */
  lemma MembersOfNumberedGroups(groups: seq<Value>, first: nat, memberFirst: nat, numbered: seq<Value>)
    requires numbered == NumberedMembers(Numbered(groups, first), memberFirst)
    ensures MemberItems(numbered) == Numbered(MemberItems(groups), memberFirst)
  {
    MembersOfNumbered(Numbered(groups, first), memberFirst);
    MemberItemsNumbered(groups, first);
  }

  /** The members of the numbered groups carry the ids drawn from `memberFirst` on. */
  lemma IdsOfMembers(groups: seq<Value>, first: nat, memberFirst: nat, numbered: seq<Value>)
    requires EditableGroups(groups) && numbered == NumberedMembers(Numbered(groups, first), memberFirst)
    ensures IdsFrom(MemberItems(numbered), memberFirst) && |MemberItems(numbered)| == |MemberItems(groups)|
  {
    var members := MemberItems(groups);
    MembersAreObjects(groups);
    MembersOfNumberedGroups(groups, first, memberFirst, numbered);
    IdsOfNumbered(members, memberFirst, MemberItems(numbered));
  }

  /** The groups, then their members, carry the ids drawn from `first` on. */
  lemma IdsOfGroups(groups: seq<Value>, first: nat, numbered: seq<Value>)
    requires EditableGroups(groups) && numbered == NumberedMembers(Numbered(groups, first), first + |groups|)
    ensures IdsFrom(numbered, first) && IdsFrom(MemberItems(numbered), first + |numbered|)
    ensures |numbered| == |groups| && |MemberItems(numbered)| == |MemberItems(groups)|
  {
    var ids := Numbered(groups, first);
    IdsOfNumbered(groups, first, ids);
    IdsOfNumberedMembers(ids, first, first + |groups|, numbered);
    IdsOfMembers(groups, first, first + |groups|, numbered);
  }

  /** The lists numbered from `first` on, kind after kind, carry consecutive ids in visit order. */
  lemma IdsOfImported(actions: seq<Value>, opers: seq<Value>, groups: seq<Value>, first: nat,
                      findActionType: Option<Value> -> string,
                      findOperatorDirection: Option<Value> -> Option<string>,
                      numberedActions: seq<Value>, numberedOpers: seq<Value>, numberedGroups: seq<Value>)
    requires AllObjects(actions) && AllObjects(opers) && EditableGroups(groups)
    requires numberedActions == NormalisedAll(Numbered(actions, first), findActionType, findOperatorDirection)
    requires numberedOpers == Numbered(opers, first + |actions|)
    requires numberedGroups == NumberedMembers(Numbered(groups, first + |actions| + |opers|),
                                               first + |actions| + |opers| + |groups|)
    ensures var items := numberedActions + numberedOpers + numberedGroups + MemberItems(numberedGroups);
            && IdsFrom(items, first)
            && |items| == |actions| + |opers| + |groups| + |MemberItems(groups)|
  {
    IdsOfNumbered(actions, first, Numbered(actions, first));
    IdsOfNormalised(Numbered(actions, first), first, findActionType, findOperatorDirection, numberedActions);
    IdsOfNumbered(opers, first + |numberedActions|, numberedOpers);
    IdsOfGroups(groups, first + |numberedActions| + |numberedOpers|, numberedGroups);
    IdsFromAppend4(numberedActions, numberedOpers, numberedGroups, MemberItems(numberedGroups), first);
  }

  /** After the import, the `n`-th item visited (actions, operators, groups, members) has
      `_id` equal to the `n`-th id drawn, so no two items share an id. */
  lemma EditableIds(op: Value, first: nat, findActionType: Option<Value> -> string,
                    findOperatorDirection: Option<Value> -> Option<string>)
    requires EditableShape(op)
    ensures var items := Items(Editable(op, first, findActionType, findOperatorDirection));
            && |items| == |Items(op)|
            && (forall i :: 0 <= i < |items| ==> Field(items[i], IdKey) == Some(Str(DecimalString(first + i))))
            && (forall i, j :: 0 <= i < j < |items| ==> Field(items[i], IdKey) != Field(items[j], IdKey))
  {
    var r := Editable(op, first, findActionType, findOperatorDirection);
    EditableLists(op, first, findActionType, findOperatorDirection);
    IdsOfImported(ListAt(op, ActionsKey), ListAt(op, OpersKey), ListAt(op, GroupsKey), first,
                  findActionType, findOperatorDirection,
                  ListAt(r, ActionsKey), ListAt(r, OpersKey), ListAt(r, GroupsKey));
    IdsFromDistinct(Items(r), first);
  }

  /** What the normalisation pass does to one action `a`, giving `b`: a recognised type
      becomes its canonical name, an unrecognised one stays; a Deploy action's direction
      becomes the canonical one when the lookup finds one; nothing else but `_id` changes. */
  ghost predicate ActionNormalised(a: Value, b: Value, findActionType: Option<Value> -> string,
                                   findOperatorDirection: Option<Value> -> Option<string>)
  {
    var t := findActionType(Field(a, TypeKey));
    var direction := findOperatorDirection(Field(a, DirectionKey));
    && Field(b, TypeKey) == (if t != UnknownType then Some(Str(t)) else Field(a, TypeKey))
    && Field(b, DirectionKey) ==
       (if t == DeployType && direction.Some? then Some(Str(direction.value)) else Field(a, DirectionKey))
    && Keeps(a, b, {IdKey, TypeKey, DirectionKey})
  }

  /** One action after the id pass and the normalisation pass. */
  lemma ActionNormalisedAt(actions: seq<Value>, first: nat, findActionType: Option<Value> -> string,
                           findOperatorDirection: Option<Value> -> Option<string>,
                           normalised: seq<Value>, i: nat)
    requires AllObjects(actions) && i < |actions|
    requires normalised == NormalisedAll(Numbered(actions, first), findActionType, findOperatorDirection)
    ensures ActionNormalised(actions[i], normalised[i], findActionType, findOperatorDirection)
  {
    var a := actions[i];
    assert normalised[i] == Normalised(WithId(a, first + i), findActionType, findOperatorDirection);
  }

  lemma ActionsNormalised(actions: seq<Value>, first: nat, findActionType: Option<Value> -> string,
                          findOperatorDirection: Option<Value> -> Option<string>, normalised: seq<Value>)
    requires AllObjects(actions)
    requires normalised == NormalisedAll(Numbered(actions, first), findActionType, findOperatorDirection)
    ensures |normalised| == |actions|
    ensures forall i :: 0 <= i < |actions| ==>
              ActionNormalised(actions[i], normalised[i], findActionType, findOperatorDirection)
  {
    forall i | 0 <= i < |actions|
      ensures ActionNormalised(actions[i], normalised[i], findActionType, findOperatorDirection)
    {
      ActionNormalisedAt(actions, first, findActionType, findOperatorDirection, normalised, i);
    }
  }

  /** Every action of the editable document is its source action, normalised. */
  lemma EditableActions(op: Value, first: nat, findActionType: Option<Value> -> string,
                        findOperatorDirection: Option<Value> -> Option<string>)
    requires EditableShape(op)
    ensures var actions := ListAt(Editable(op, first, findActionType, findOperatorDirection), ActionsKey);
            && |actions| == |ListAt(op, ActionsKey)|
            && forall i :: 0 <= i < |actions| ==>
                 ActionNormalised(ListAt(op, ActionsKey)[i], actions[i], findActionType, findOperatorDirection)
  {
    var r := Editable(op, first, findActionType, findOperatorDirection);
    EditableLists(op, first, findActionType, findOperatorDirection);
    ActionsNormalised(ListAt(op, ActionsKey), first, findActionType, findOperatorDirection, ListAt(r, ActionsKey));
  }

  /** Apart from its three lists the import leaves the document's fields alone, and
      a list is present afterwards exactly when it was before. */
  lemma EditableKeepsDocument(op: Value, first: nat, findActionType: Option<Value> -> string,
                              findOperatorDirection: Option<Value> -> Option<string>)
    requires EditableShape(op)
    ensures var r := Editable(op, first, findActionType, findOperatorDirection);
            && r.Obj? && Keeps(op, r, {ActionsKey, OpersKey, GroupsKey})
            && IsList(r, ActionsKey)
            && IsList(r, OpersKey) == IsList(op, OpersKey)
            && IsList(r, GroupsKey) == IsList(op, GroupsKey)
            && (!IsList(op, OpersKey) ==> Field(r, OpersKey) == Field(op, OpersKey))
            && (!IsList(op, GroupsKey) ==> Field(r, GroupsKey) == Field(op, GroupsKey))
  {
    var n := IdsAssigned(op, first);
    IdsAssignedLists(op, first);
    IdsAssignedKeeps(op, first);
    EditableListsKept(op, first, findActionType, findOperatorDirection);
    KeepsTransitive(op, n, Editable(op, first, findActionType, findOperatorDirection),
                    {ActionsKey, OpersKey, GroupsKey}, {ActionsKey});
    assert {ActionsKey, OpersKey, GroupsKey} + {ActionsKey} == {ActionsKey, OpersKey, GroupsKey};
  }

  /** Each operator keeps everything but its new `_id`, in its place. */
  lemma EditableKeepsOperators(op: Value, first: nat, findActionType: Option<Value> -> string,
                               findOperatorDirection: Option<Value> -> Option<string>)
    requires EditableShape(op)
    ensures var opers := ListAt(Editable(op, first, findActionType, findOperatorDirection), OpersKey);
            && |opers| == |ListAt(op, OpersKey)|
            && forall i :: 0 <= i < |opers| ==> Keeps(ListAt(op, OpersKey)[i], opers[i], {IdKey})
  {
    EditableLists(op, first, findActionType, findOperatorDirection);
  }

  /** Group `j` keeps everything but its `_id` and its members. */
  lemma GroupKeptAt(groups: seq<Value>, first: nat, memberFirst: nat, numbered: seq<Value>, j: nat)
    requires j < |groups| && numbered == NumberedMembers(Numbered(groups, first), memberFirst)
    ensures Keeps(groups[j], numbered[j], {IdKey, OpersKey})
    ensures IsList(numbered[j], OpersKey) == IsList(groups[j], OpersKey)
  {
    var ids := Numbered(groups, first);
    var n := memberFirst + |MemberItems(ids[..j])|;
    NumberedMembersAt(ids, memberFirst, j);
    assert ids[j] == WithId(groups[j], first + j);
    WithListKeeps(ids[j], OpersKey, Numbered(ListAt(ids[j], OpersKey), n));
    KeepsTransitive(groups[j], ids[j], numbered[j], {IdKey}, {OpersKey});
  }

  /** The numbered groups keep everything but their `_id` and their members, in their places. */
  lemma GroupsKept(groups: seq<Value>, first: nat, memberFirst: nat, numbered: seq<Value>)
    requires numbered == NumberedMembers(Numbered(groups, first), memberFirst)
    ensures |numbered| == |groups|
    ensures forall j :: 0 <= j < |groups| ==>
              && Keeps(groups[j], numbered[j], {IdKey, OpersKey})
              && IsList(numbered[j], OpersKey) == IsList(groups[j], OpersKey)
  {
    forall j | 0 <= j < |groups|
      ensures Keeps(groups[j], numbered[j], {IdKey, OpersKey})
      ensures IsList(numbered[j], OpersKey) == IsList(groups[j], OpersKey)
    {
      GroupKeptAt(groups, first, memberFirst, numbered, j);
    }
  }

  /** Each group keeps everything but its new `_id` and its members' ids, in its place. */
  lemma EditableKeepsGroups(op: Value, first: nat, findActionType: Option<Value> -> string,
                            findOperatorDirection: Option<Value> -> Option<string>)
    requires EditableShape(op)
    ensures var groups := ListAt(Editable(op, first, findActionType, findOperatorDirection), GroupsKey);
            && |groups| == |ListAt(op, GroupsKey)|
            && forall j :: 0 <= j < |groups| ==>
                 && Keeps(ListAt(op, GroupsKey)[j], groups[j], {IdKey, OpersKey})
                 && IsList(groups[j], OpersKey) == IsList(ListAt(op, GroupsKey)[j], OpersKey)
  {
    var r := Editable(op, first, findActionType, findOperatorDirection);
    var groups := ListAt(op, GroupsKey);
    var groupFirst := first + |ListAt(op, ActionsKey)| + |ListAt(op, OpersKey)|;
    EditableLists(op, first, findActionType, findOperatorDirection);
    GroupsKept(groups, groupFirst, groupFirst + |groups|, ListAt(r, GroupsKey));
  }

  /** Numbering keeps everything in each item but its `_id`. */
  lemma NumberedKeeps(items: seq<Value>, first: nat, numbered: seq<Value>)
    requires numbered == Numbered(items, first)
    ensures |numbered| == |items| && forall i :: 0 <= i < |items| ==> Keeps(items[i], numbered[i], {IdKey})
  {
  }

  /** The members of the numbered groups keep everything but their `_id`, in their places. */
  lemma MembersKept(groups: seq<Value>, first: nat, memberFirst: nat, numbered: seq<Value>)
    requires numbered == NumberedMembers(Numbered(groups, first), memberFirst)
    ensures var members := MemberItems(numbered);
            && |members| == |MemberItems(groups)|
            && forall i :: 0 <= i < |members| ==> Keeps(MemberItems(groups)[i], members[i], {IdKey})
  {
    MembersOfNumberedGroups(groups, first, memberFirst, numbered);
    NumberedKeeps(MemberItems(groups), memberFirst, MemberItems(numbered));
  }

  /** Each group member keeps everything but its new `_id`, in its place. */
  lemma EditableKeepsMembers(op: Value, first: nat, findActionType: Option<Value> -> string,
                             findOperatorDirection: Option<Value> -> Option<string>)
    requires EditableShape(op)
    ensures var members := MemberItems(ListAt(Editable(op, first, findActionType, findOperatorDirection), GroupsKey));
            && |members| == |MemberItems(ListAt(op, GroupsKey))|
            && forall i :: 0 <= i < |members| ==> Keeps(MemberItems(ListAt(op, GroupsKey))[i], members[i], {IdKey})
  {
    var r := Editable(op, first, findActionType, findOperatorDirection);
    var groups := ListAt(op, GroupsKey);
    var groupFirst := first + |ListAt(op, ActionsKey)| + |ListAt(op, OpersKey)|;
    EditableLists(op, first, findActionType, findOperatorDirection);
    MembersKept(groups, groupFirst, groupFirst + |groups|, ListAt(r, GroupsKey));
  }

  // ---------------------------------------------------------------------------
  // toMaaOperation

  /** Items that `flat(2)` leaves as they are: anything but a nested list. */
  predicate NoNestedLists(xs: seq<Value>) {
    forall i :: 0 <= i < |xs| ==> !xs[i].Arr?
  }

  /** Groups as `toMaaOperation` reads them: a group that is an object has an optional
      list of members; any other entry (a missing group) has none. */
  predicate ExportGroups(gs: seq<Value>) {
    && NoNestedLists(gs)
    && forall i :: 0 <= i < |gs| ==> gs[i].Obj? ==> OptionalList(gs[i], OpersKey) && NoNestedLists(ListAt(gs[i], OpersKey))
  }

  /** A `DeepPartial<CopilotDocV1.Operation>`, as far as `toMaaOperation` relies on it:
      every list is optional and its entries may be missing. */
  predicate ExportShape(op: Value) {
    && op.Obj?
    && OptionalList(op, ActionsKey) && NoNestedLists(ListAt(op, ActionsKey))
    && OptionalList(op, OpersKey) && NoNestedLists(ListAt(op, OpersKey))
    && OptionalList(op, GroupsKey) && ExportGroups(ListAt(op, GroupsKey))
  }

  /** `delete item._id; delete item.id`. */
  function Stripped(item: Value): Value {
    DeleteField(DeleteField(item, IdKey), LeakedIdKey)
  }

  function StrippedAll(items: seq<Value>): (r: seq<Value>)
    ensures |r| == |items|
  {
    seq(|items|, i requires 0 <= i < |items| => Stripped(items[i]))
  }

  /** One group after its members were stripped. */
  function StrippedGroupMembers(g: Value): Value {
    WithList(g, OpersKey, StrippedAll(ListAt(g, OpersKey)))
  }

  function StrippedMembers(groups: seq<Value>): (r: seq<Value>)
    ensures |r| == |groups|
  {
    seq(|groups|, j requires 0 <= j < |groups| => StrippedGroupMembers(groups[j]))
  }

  /** `operation.minimumRequired ||= MinimumRequired.V4_0_0`. */
  function WithMinimumRequired(op: Value): Value
    requires op.Obj?
  {
    if Truthy(Field(op, MinimumRequiredKey)) then op else SetField(op, MinimumRequiredKey, Str(V4_0_0))
  }

  /** The document `toMaaOperation` hands to `snakeCaseKeys`: `minimumRequired` defaulted,
      then `_id` and `id` deleted from every action, operator, group and group member. */
  function Exportable(op: Value): Value
    requires op.Obj?
  {
    var defaulted := WithMinimumRequired(op);
    var withActions := WithList(defaulted, ActionsKey, StrippedAll(ListAt(defaulted, ActionsKey)));
    var withOpers := WithList(withActions, OpersKey, StrippedAll(ListAt(withActions, OpersKey)));
    StrippedGroups(withOpers)
  }

  /** The strip pass over the groups, then over their members. */
  function StrippedGroups(v: Value): Value {
    WithList(v, GroupsKey, StrippedMembers(StrippedAll(ListAt(v, GroupsKey))))
  }

  /** The strip pass over one list. */
  method StripIds(items: seq<Value>) returns (stripped: seq<Value>)
    ensures stripped == StrippedAll(items)
  {
    stripped := items;
    var i := 0;
    while i < |items|
      invariant 0 <= i <= |items| == |stripped|
      invariant forall j :: 0 <= j < i ==> stripped[j] == Stripped(items[j])
      invariant forall j :: i <= j < |items| ==> stripped[j] == items[j]
    {
      var item := stripped[i];
      item := DeleteField(item, IdKey);
      // the id may leak out when editing
      item := DeleteField(item, LeakedIdKey);
      stripped := stripped[i := item];
      i := i + 1;
    }
  }

  /** The strip pass over `v[k]` when it is a list. */
  method StripListIds(v: Value, k: string) returns (r: Value)
    ensures r == WithList(v, k, StrippedAll(ListAt(v, k)))
  {
    r := v;
    if IsList(v, k) {
      var items := StripIds(ListAt(v, k));
      r := SetField(v, k, Arr(items));
    }
  }

  /** The strip pass over every group's members, group after group. */
  method StripMemberIds(groups: seq<Value>) returns (stripped: seq<Value>)
    ensures stripped == StrippedMembers(groups)
  {
    stripped := groups;
    var j := 0;
    while j < |groups|
      invariant 0 <= j <= |groups| == |stripped|
      invariant forall t :: 0 <= t < j ==> stripped[t] == StrippedGroupMembers(groups[t])
      invariant forall t :: j <= t < |groups| ==> stripped[t] == groups[t]
    {
      var group := StripListIds(stripped[j], OpersKey);
      stripped := stripped[j := group];
      j := j + 1;
    }
  }

  /** The strip pass over `v.groups` when it is a list: the groups, then their members. */
  method StripGroupIds(v: Value) returns (r: Value)
    ensures r == StrippedGroups(v)
  {
    r := v;
    if IsList(v, GroupsKey) {
      var groups := StripIds(ListAt(v, GroupsKey));
      groups := StripMemberIds(groups);
      r := SetField(v, GroupsKey, Arr(groups));
    }
  }

  /** `toMaaOperation`: works on a copy (the caller's document is only read), and hands
      the stripped document to the deep key conversion. */
  method ToMaaOperation(source: Document, snake: string -> string) returns (exported: Value)
    requires ExportShape(source.root)
    ensures IsRenaming(Exportable(source.root), exported, snake)
  {
    // JSON.parse(JSON.stringify(operation)): a copy the caller cannot see
    var operation := source.root;
    ghost var op := operation;

    if !Truthy(Field(operation, MinimumRequiredKey)) {
      operation := SetField(operation, MinimumRequiredKey, Str(V4_0_0));
    }
    assert operation == WithMinimumRequired(op);

    // strip ids: the actions, the operators, the groups, then every group's members
    operation := StripListIds(operation, ActionsKey);
    operation := StripListIds(operation, OpersKey);
    operation := StripGroupIds(operation);

    exported := RenameKeys(operation, snake);
  }

  // ---------------------------------------------------------------------------
  // What toMaaOperation promises

  /** Defaulting `minimumRequired` touches no other field. */
  lemma MinimumRequiredElsewhere(op: Value, k: string)
    requires op.Obj? && k != MinimumRequiredKey
    ensures WithMinimumRequired(op).Obj? && Field(WithMinimumRequired(op), k) == Field(op, k)
  {
  }

  /** The lists of the exported document. */
  lemma ExportLists(op: Value)
    requires op.Obj?
    ensures var r := Exportable(op);
            && r.Obj?
            && IsList(r, ActionsKey) == IsList(op, ActionsKey)
            && IsList(r, OpersKey) == IsList(op, OpersKey)
            && IsList(r, GroupsKey) == IsList(op, GroupsKey)
            && (!IsList(op, ActionsKey) ==> Field(r, ActionsKey) == Field(op, ActionsKey))
            && (!IsList(op, OpersKey) ==> Field(r, OpersKey) == Field(op, OpersKey))
            && (!IsList(op, GroupsKey) ==> Field(r, GroupsKey) == Field(op, GroupsKey))
            && ListAt(r, ActionsKey) == StrippedAll(ListAt(op, ActionsKey))
            && ListAt(r, OpersKey) == StrippedAll(ListAt(op, OpersKey))
            && ListAt(r, GroupsKey) == StrippedMembers(StrippedAll(ListAt(op, GroupsKey)))
  {
    var defaulted := WithMinimumRequired(op);
    MinimumRequiredElsewhere(op, ActionsKey);
    MinimumRequiredElsewhere(op, OpersKey);
    MinimumRequiredElsewhere(op, GroupsKey);
    var actions := StrippedAll(ListAt(defaulted, ActionsKey));
    var withActions := WithList(defaulted, ActionsKey, actions);
    WithListAt(defaulted, ActionsKey, actions);
    WithListElsewhere(defaulted, ActionsKey, actions, OpersKey);
    WithListElsewhere(defaulted, ActionsKey, actions, GroupsKey);
    var opers := StrippedAll(ListAt(withActions, OpersKey));
    var withOpers := WithList(withActions, OpersKey, opers);
    WithListAt(withActions, OpersKey, opers);
    WithListElsewhere(withActions, OpersKey, opers, ActionsKey);
    WithListElsewhere(withActions, OpersKey, opers, GroupsKey);
    var groups := StrippedMembers(StrippedAll(ListAt(withOpers, GroupsKey)));
    WithListAt(withOpers, GroupsKey, groups);
    WithListElsewhere(withOpers, GroupsKey, groups, ActionsKey);
    WithListElsewhere(withOpers, GroupsKey, groups, OpersKey);
  }

  /** `minimumRequired` is kept when it is set, and defaults to `V4_0_0` when it is
      missing or empty; either way the exported document has one. */
  lemma ExportMinimumRequired(op: Value)
    requires op.Obj?
    ensures var m := Field(Exportable(op), MinimumRequiredKey);
            && m == (if Truthy(Field(op, MinimumRequiredKey)) then Field(op, MinimumRequiredKey) else Some(Str(V4_0_0)))
            && Truthy(m)
  {
    var defaulted := WithMinimumRequired(op);
    var actions := StrippedAll(ListAt(defaulted, ActionsKey));
    var withActions := WithList(defaulted, ActionsKey, actions);
    var opers := StrippedAll(ListAt(withActions, OpersKey));
    var withOpers := WithList(withActions, OpersKey, opers);
    WithListElsewhere(defaulted, ActionsKey, actions, MinimumRequiredKey);
    WithListElsewhere(withActions, OpersKey, opers, MinimumRequiredKey);
    WithListElsewhere(withOpers, GroupsKey, StrippedMembers(StrippedAll(ListAt(withOpers, GroupsKey))), MinimumRequiredKey);
  }

  /** Neither `_id` nor `id` on any item of `xs`. */
  ghost predicate NoIds(xs: seq<Value>) {
    forall i :: 0 <= i < |xs| ==> Field(xs[i], IdKey) == None && Field(xs[i], LeakedIdKey) == None
  }

  lemma {:induction false} StrippedAppend(a: seq<Value>, b: seq<Value>)
    ensures StrippedAll(a + b) == StrippedAll(a) + StrippedAll(b)
  {
  }

  /** Stripping the groups leaves their members as they are. */
  lemma {:induction false} MemberItemsStripped(groups: seq<Value>)
    ensures MemberItems(StrippedAll(groups)) == MemberItems(groups)
  {
    if groups != [] {
      assert StrippedAll(groups)[1..] == StrippedAll(groups[1..]);
      MemberItemsStripped(groups[1..]);
    }
  }

  /** The members of the member-stripped groups are the members, stripped. */
  lemma {:induction false} MembersOfStripped(groups: seq<Value>)
    ensures MemberItems(StrippedMembers(groups)) == StrippedAll(MemberItems(groups))
  {
    if groups != [] {
      assert StrippedMembers(groups)[1..] == StrippedMembers(groups[1..]);
      MembersOfStripped(groups[1..]);
      StrippedAppend(ListAt(groups[0], OpersKey), MemberItems(groups[1..]));
    }
  }

  lemma NoIdsAppend4(a: seq<Value>, b: seq<Value>, c: seq<Value>, d: seq<Value>)
    requires NoIds(a) && NoIds(b) && NoIds(c) && NoIds(d)
    ensures NoIds(a + b + c + d)
  {
  }

  lemma StrippedHasNoIds(x: Value)
    ensures Field(Stripped(x), IdKey) == None && Field(Stripped(x), LeakedIdKey) == None
  {
  }

  lemma NoIdsStripped(xs: seq<Value>, stripped: seq<Value>)
    requires stripped == StrippedAll(xs)
    ensures NoIds(stripped)
  {
    forall i | 0 <= i < |stripped| ensures Field(stripped[i], IdKey) == None && Field(stripped[i], LeakedIdKey) == None {
      StrippedHasNoIds(xs[i]);
    }
  }

  lemma NoIdsStrippedGroups(groups: seq<Value>, stripped: seq<Value>)
    requires stripped == StrippedMembers(StrippedAll(groups))
    ensures NoIds(stripped)
  {
    forall j | 0 <= j < |stripped| ensures Field(stripped[j], IdKey) == None && Field(stripped[j], LeakedIdKey) == None {
      var g := Stripped(groups[j]);
      var members := StrippedAll(ListAt(g, OpersKey));
      StrippedHasNoIds(groups[j]);
      WithListElsewhere(g, OpersKey, members, IdKey);
      WithListElsewhere(g, OpersKey, members, LeakedIdKey);
    }
  }

  lemma ExportGroupsStripped(r: Value, groups: seq<Value>)
    requires ListAt(r, GroupsKey) == StrippedMembers(StrippedAll(groups))
    ensures var stripped := ListAt(r, GroupsKey);
            && |MemberItems(stripped)| == |MemberItems(groups)|
            && NoIds(stripped) && NoIds(MemberItems(stripped))
  {
    StrippedMembersOf(r, groups);
    NoIdsStrippedGroups(groups, ListAt(r, GroupsKey));
    NoIdsStripped(MemberItems(groups), MemberItems(ListAt(r, GroupsKey)));
  }

  lemma NoIdsOfItems(r: Value)
    requires NoIds(ListAt(r, ActionsKey)) && NoIds(ListAt(r, OpersKey))
    requires NoIds(ListAt(r, GroupsKey)) && NoIds(MemberItems(ListAt(r, GroupsKey)))
    ensures NoIds(Items(r))
  {
    NoIdsAppend4(ListAt(r, ActionsKey), ListAt(r, OpersKey), ListAt(r, GroupsKey), MemberItems(ListAt(r, GroupsKey)));
  }

  /** In the document the export hands to the key conversion, no action, operator, group
      or group member carries `_id` or `id`; every item is still there, in its place. */
  lemma ExportStripsIds(op: Value)
    requires op.Obj?
    ensures var items := Items(Exportable(op));
            && |items| == |Items(op)|
            && forall i :: 0 <= i < |items| ==> Field(items[i], IdKey) == None && Field(items[i], LeakedIdKey) == None
  {
    var r := Exportable(op);
    ExportLists(op);
    ExportGroupsStripped(r, ListAt(op, GroupsKey));
    NoIdsOfItems(r);
  }

  /** The document keeps every field but `minimumRequired` and its three lists. */
  lemma ExportKeepsDocument(op: Value)
    requires op.Obj?
    ensures Keeps(op, Exportable(op), {MinimumRequiredKey, ActionsKey, OpersKey, GroupsKey})
  {
    var defaulted := WithMinimumRequired(op);
    var actions := StrippedAll(ListAt(defaulted, ActionsKey));
    var withActions := WithList(defaulted, ActionsKey, actions);
    var opers := StrippedAll(ListAt(withActions, OpersKey));
    var withOpers := WithList(withActions, OpersKey, opers);
    WithListKeeps(defaulted, ActionsKey, actions);
    WithListKeeps(withActions, OpersKey, opers);
    WithListKeeps(withOpers, GroupsKey, StrippedMembers(StrippedAll(ListAt(withOpers, GroupsKey))));
    KeepsTransitive(op, defaulted, withActions, {MinimumRequiredKey}, {ActionsKey});
    KeepsTransitive(op, withActions, withOpers, {MinimumRequiredKey} + {ActionsKey}, {OpersKey});
    KeepsTransitive(op, withOpers, Exportable(op), {MinimumRequiredKey} + {ActionsKey} + {OpersKey}, {GroupsKey});
    assert {MinimumRequiredKey} + {ActionsKey} + {OpersKey} + {GroupsKey} == {MinimumRequiredKey, ActionsKey, OpersKey, GroupsKey};
  }

  /** Stripping keeps everything in each item but `_id` and `id`. */
  lemma StrippedKeeps(xs: seq<Value>, stripped: seq<Value>)
    requires stripped == StrippedAll(xs)
    ensures forall i :: 0 <= i < |xs| ==> Keeps(xs[i], stripped[i], {IdKey, LeakedIdKey})
  {
  }

  /** Group `j` keeps everything but `_id`, `id` and its members, and keeps a member list
      exactly when it had one. */
  lemma StrippedGroupKeepsAt(groups: seq<Value>, stripped: seq<Value>, j: nat)
    requires j < |groups| && stripped == StrippedMembers(StrippedAll(groups))
    ensures Keeps(groups[j], stripped[j], {IdKey, LeakedIdKey, OpersKey})
    ensures IsList(stripped[j], OpersKey) == IsList(groups[j], OpersKey)
  {
    var g := Stripped(groups[j]);
    assert stripped[j] == StrippedGroupMembers(g);
    WithListKeeps(g, OpersKey, StrippedAll(ListAt(g, OpersKey)));
    KeepsTransitive(groups[j], g, stripped[j], {IdKey, LeakedIdKey}, {OpersKey});
    assert {IdKey, LeakedIdKey} + {OpersKey} == {IdKey, LeakedIdKey, OpersKey};
  }

  lemma StrippedGroupsKeep(groups: seq<Value>, stripped: seq<Value>)
    requires stripped == StrippedMembers(StrippedAll(groups))
    ensures forall j :: 0 <= j < |groups| ==>
              && Keeps(groups[j], stripped[j], {IdKey, LeakedIdKey, OpersKey})
              && IsList(stripped[j], OpersKey) == IsList(groups[j], OpersKey)
  {
    forall j | 0 <= j < |groups|
      ensures Keeps(groups[j], stripped[j], {IdKey, LeakedIdKey, OpersKey})
      ensures IsList(stripped[j], OpersKey) == IsList(groups[j], OpersKey)
    {
      StrippedGroupKeepsAt(groups, stripped, j);
    }
  }

  /** Apart from `minimumRequired` and its three lists the export leaves the document's
      fields alone; a list is present afterwards exactly when it was before, with the same
      length, and each action, operator and group loses only `_id` and `id`
      (a group's members aside). */
  lemma ExportKeeps(op: Value)
    requires op.Obj?
    ensures var r := Exportable(op);
            var actions, opers, groups := ListAt(r, ActionsKey), ListAt(r, OpersKey), ListAt(r, GroupsKey);
            && Keeps(op, r, {MinimumRequiredKey, ActionsKey, OpersKey, GroupsKey})
            && |actions| == |ListAt(op, ActionsKey)| && |opers| == |ListAt(op, OpersKey)| && |groups| == |ListAt(op, GroupsKey)|
            && (forall i :: 0 <= i < |actions| ==> Keeps(ListAt(op, ActionsKey)[i], actions[i], {IdKey, LeakedIdKey}))
            && (forall i :: 0 <= i < |opers| ==> Keeps(ListAt(op, OpersKey)[i], opers[i], {IdKey, LeakedIdKey}))
            && (forall j :: 0 <= j < |groups| ==>
                  && Keeps(ListAt(op, GroupsKey)[j], groups[j], {IdKey, LeakedIdKey, OpersKey})
                  && IsList(groups[j], OpersKey) == IsList(ListAt(op, GroupsKey)[j], OpersKey))
  {
    var r := Exportable(op);
    ExportKeepsDocument(op);
    ExportLists(op);
    StrippedKeeps(ListAt(op, ActionsKey), ListAt(r, ActionsKey));
    StrippedKeeps(ListAt(op, OpersKey), ListAt(r, OpersKey));
    StrippedGroupsKeep(ListAt(op, GroupsKey), ListAt(r, GroupsKey));
  }

  /** Each group member loses only `_id` and `id`, and stays in its place. */
  lemma ExportKeepsMembers(op: Value)
    requires op.Obj?
    ensures var members := MemberItems(ListAt(Exportable(op), GroupsKey));
            && |members| == |MemberItems(ListAt(op, GroupsKey))|
            && forall i :: 0 <= i < |members| ==>
                 Keeps(MemberItems(ListAt(op, GroupsKey))[i], members[i], {IdKey, LeakedIdKey})
  {
    ExportLists(op);
    StrippedMembersOf(Exportable(op), ListAt(op, GroupsKey));
  }

  lemma StrippedMembersOf(r: Value, groups: seq<Value>)
    requires ListAt(r, GroupsKey) == StrippedMembers(StrippedAll(groups))
    ensures MemberItems(ListAt(r, GroupsKey)) == StrippedAll(MemberItems(groups))
  {
    MembersOfStripped(StrippedAll(groups));
    MemberItemsStripped(groups);
  }

  // ---------------------------------------------------------------------------
  // Import, then export

  /** No item of the operation carries an id yet. */
  ghost predicate IdFree(op: Value) {
    && NoIds(ListAt(op, ActionsKey)) && NoIds(ListAt(op, OpersKey)) && NoIds(ListAt(op, GroupsKey))
    && forall j :: 0 <= j < |ListAt(op, GroupsKey)| ==> NoIds(ListAt(ListAt(op, GroupsKey)[j], OpersKey))
  }

  /** Every action's type, and a deployment's direction, is already in canonical form:
      normalising it changes nothing. */
  ghost predicate Canonical(op: Value, findActionType: Option<Value> -> string,
                            findOperatorDirection: Option<Value> -> Option<string>)
  {
    forall i :: 0 <= i < |ListAt(op, ActionsKey)| ==>
      ActionNormalised(ListAt(op, ActionsKey)[i], ListAt(op, ActionsKey)[i], findActionType, findOperatorDirection)
  }

  lemma ItemRoundTrip(x: Value, n: nat)
    requires x.Obj? && Field(x, IdKey) == None && Field(x, LeakedIdKey) == None
    ensures Stripped(WithId(x, n)) == x
  {
    assert Stripped(WithId(x, n)).fields == x.fields;
  }

  lemma ActionRoundTrip(a: Value, n: nat, findActionType: Option<Value> -> string,
                        findOperatorDirection: Option<Value> -> Option<string>, imported: Value)
    requires a.Obj? && Field(a, IdKey) == None && Field(a, LeakedIdKey) == None
    requires ActionNormalised(a, a, findActionType, findOperatorDirection)
    requires imported == Normalised(WithId(a, n), findActionType, findOperatorDirection)
    ensures Stripped(imported) == a
  {
    var b := Stripped(imported);
    forall k ensures Field(b, k) == Field(a, k) {
    }
    assert b.fields == a.fields;
  }

  lemma ListRoundTrip(xs: seq<Value>, first: nat, numbered: seq<Value>)
    requires AllObjects(xs) && NoIds(xs) && numbered == Numbered(xs, first)
    ensures StrippedAll(numbered) == xs
  {
    forall i | 0 <= i < |xs| ensures StrippedAll(numbered)[i] == xs[i] {
      ItemRoundTrip(xs[i], first + i);
    }
  }

  /** Action `i` of the imported actions strips back to action `i`. */
  lemma ActionsRoundTripAt(actions: seq<Value>, first: nat, findActionType: Option<Value> -> string,
                           findOperatorDirection: Option<Value> -> Option<string>, imported: seq<Value>, i: nat)
    requires i < |actions| && imported == NormalisedAll(Numbered(actions, first), findActionType, findOperatorDirection)
    requires actions[i].Obj? && Field(actions[i], IdKey) == None && Field(actions[i], LeakedIdKey) == None
    requires ActionNormalised(actions[i], actions[i], findActionType, findOperatorDirection)
    ensures Stripped(imported[i]) == actions[i]
  {
    ActionRoundTrip(actions[i], first + i, findActionType, findOperatorDirection, imported[i]);
  }

  lemma ActionsRoundTrip(actions: seq<Value>, first: nat, findActionType: Option<Value> -> string,
                         findOperatorDirection: Option<Value> -> Option<string>, imported: seq<Value>)
    requires AllObjects(actions) && NoIds(actions)
    requires forall i :: 0 <= i < |actions| ==> ActionNormalised(actions[i], actions[i], findActionType, findOperatorDirection)
    requires imported == NormalisedAll(Numbered(actions, first), findActionType, findOperatorDirection)
    ensures StrippedAll(imported) == actions
  {
    forall i | 0 <= i < |actions| ensures Stripped(imported[i]) == actions[i] {
      ActionsRoundTripAt(actions, first, findActionType, findOperatorDirection, imported, i);
    }
  }

  lemma GroupRoundTrip(g: Value, n: nat, memberFirst: nat, numbered: Value)
    requires g.Obj? && Field(g, IdKey) == None && Field(g, LeakedIdKey) == None
    requires AllObjects(ListAt(g, OpersKey)) && NoIds(ListAt(g, OpersKey))
    requires numbered == NumberedGroupMembers(WithId(g, n), memberFirst)
    ensures StrippedGroupMembers(Stripped(numbered)) == g
  {
    ListRoundTrip(ListAt(g, OpersKey), memberFirst, Numbered(ListAt(g, OpersKey), memberFirst));
    var b := StrippedGroupMembers(Stripped(numbered));
    forall k ensures Field(b, k) == Field(g, k) {
    }
    assert b.fields == g.fields;
  }

  /** Group `j` of the numbered groups strips back to group `j`. */
  lemma GroupsRoundTripAt(groups: seq<Value>, first: nat, memberFirst: nat, numbered: seq<Value>, j: nat)
    requires j < |groups| && numbered == NumberedMembers(Numbered(groups, first), memberFirst)
    requires groups[j].Obj? && Field(groups[j], IdKey) == None && Field(groups[j], LeakedIdKey) == None
    requires AllObjects(ListAt(groups[j], OpersKey)) && NoIds(ListAt(groups[j], OpersKey))
    ensures StrippedGroupMembers(Stripped(numbered[j])) == groups[j]
  {
    var ids := Numbered(groups, first);
    NumberedMembersAt(ids, memberFirst, j);
    assert ids[j] == WithId(groups[j], first + j);
    GroupRoundTrip(groups[j], first + j, memberFirst + |MemberItems(ids[..j])|, numbered[j]);
  }

  lemma GroupsRoundTrip(groups: seq<Value>, first: nat, memberFirst: nat, numbered: seq<Value>)
    requires EditableGroups(groups) && NoIds(groups)
    requires forall j :: 0 <= j < |groups| ==> NoIds(ListAt(groups[j], OpersKey))
    requires numbered == NumberedMembers(Numbered(groups, first), memberFirst)
    ensures StrippedMembers(StrippedAll(numbered)) == groups
  {
    forall j | 0 <= j < |groups| ensures StrippedGroupMembers(Stripped(numbered[j])) == groups[j] {
      GroupsRoundTripAt(groups, first, memberFirst, numbered, j);
    }
  }

  /** Two objects that agree on every field are the same object. */
  lemma SameObject(a: Value, b: Value)
    requires a.Obj? && b.Obj? && forall k :: Field(a, k) == Field(b, k)
    ensures a == b
  {
    forall k | k in a.fields ensures k in b.fields && a.fields[k] == b.fields[k] {
      assert Field(a, k) == Field(b, k);
    }
    forall k | k in b.fields ensures k in a.fields {
      assert Field(a, k) == Field(b, k);
    }
    assert a.fields == b.fields;
  }

  /** A document rebuilt with the same lists in place of its own is the document. */
  lemma SameLists(x: Value, op: Value)
    requires x.Obj? && op.Obj? && Keeps(op, x, {ActionsKey, OpersKey, GroupsKey})
    requires IsList(x, ActionsKey) == IsList(op, ActionsKey) && ListAt(x, ActionsKey) == ListAt(op, ActionsKey)
    requires IsList(x, OpersKey) == IsList(op, OpersKey) && ListAt(x, OpersKey) == ListAt(op, OpersKey)
    requires IsList(x, GroupsKey) == IsList(op, GroupsKey) && ListAt(x, GroupsKey) == ListAt(op, GroupsKey)
    requires !IsList(op, ActionsKey) ==> Field(x, ActionsKey) == Field(op, ActionsKey)
    requires !IsList(op, OpersKey) ==> Field(x, OpersKey) == Field(op, OpersKey)
    requires !IsList(op, GroupsKey) ==> Field(x, GroupsKey) == Field(op, GroupsKey)
    ensures x == op
  {
    forall k ensures Field(x, k) == Field(op, k) {
      if k == ActionsKey || k == OpersKey || k == GroupsKey {
        if IsList(op, k) {
          assert Field(x, k) == Some(Arr(ListAt(x, k)));
          assert Field(op, k) == Some(Arr(ListAt(op, k)));
        }
      }
    }
    SameObject(x, op);
  }

  /** Stripping the numbered, normalised lists of `op` gives back the lists of `op`. */
  lemma StrippedImportedLists(op: Value, e: Value, first: nat, findActionType: Option<Value> -> string,
                              findOperatorDirection: Option<Value> -> Option<string>)
    requires EditableShape(op) && IdFree(op) && Canonical(op, findActionType, findOperatorDirection)
    requires var actions, opers, groups := ListAt(op, ActionsKey), ListAt(op, OpersKey), ListAt(op, GroupsKey);
             var groupFirst := first + |actions| + |opers|;
             && ListAt(e, ActionsKey) == NormalisedAll(Numbered(actions, first), findActionType, findOperatorDirection)
             && ListAt(e, OpersKey) == Numbered(opers, first + |actions|)
             && ListAt(e, GroupsKey) == NumberedMembers(Numbered(groups, groupFirst), groupFirst + |groups|)
    ensures StrippedAll(ListAt(e, ActionsKey)) == ListAt(op, ActionsKey)
    ensures StrippedAll(ListAt(e, OpersKey)) == ListAt(op, OpersKey)
    ensures StrippedMembers(StrippedAll(ListAt(e, GroupsKey))) == ListAt(op, GroupsKey)
  {
    var actions, opers, groups := ListAt(op, ActionsKey), ListAt(op, OpersKey), ListAt(op, GroupsKey);
    var groupFirst := first + |actions| + |opers|;
    ActionsRoundTrip(actions, first, findActionType, findOperatorDirection, ListAt(e, ActionsKey));
    ListRoundTrip(opers, first + |actions|, ListAt(e, OpersKey));
    GroupsRoundTrip(groups, groupFirst, groupFirst + |groups|, ListAt(e, GroupsKey));
  }

  /** A document that keeps the fields of `op` and whose export strips its lists back to
      those of `op` exports to `op`. */
  lemma ExportOfImported(op: Value, e: Value)
    requires op.Obj? && IsList(op, ActionsKey) && Truthy(Field(op, MinimumRequiredKey))
    requires e.Obj? && Keeps(op, e, {ActionsKey, OpersKey, GroupsKey})
    requires IsList(e, ActionsKey) && IsList(e, OpersKey) == IsList(op, OpersKey) && IsList(e, GroupsKey) == IsList(op, GroupsKey)
    requires !IsList(op, OpersKey) ==> Field(e, OpersKey) == Field(op, OpersKey)
    requires !IsList(op, GroupsKey) ==> Field(e, GroupsKey) == Field(op, GroupsKey)
    requires StrippedAll(ListAt(e, ActionsKey)) == ListAt(op, ActionsKey)
    requires StrippedAll(ListAt(e, OpersKey)) == ListAt(op, OpersKey)
    requires StrippedMembers(StrippedAll(ListAt(e, GroupsKey))) == ListAt(op, GroupsKey)
    ensures Exportable(e) == op
  {
    ExportLists(e);
    ExportKeepsDocument(e);
    ExportMinimumRequired(e);
    SameLists(Exportable(e), op);
  }

  /** The export undoes the import up to the key conversion: a document without ids,
      whose actions are already canonical and which names its `minimumRequired`, comes
      back as its own deep key renaming, whatever conversion `snake` is. */
  lemma RoundTrip(op: Value, first: nat, findActionType: Option<Value> -> string,
                  findOperatorDirection: Option<Value> -> Option<string>,
                  snake: string -> string, exported: Value)
    requires EditableShape(op) && IdFree(op) && Canonical(op, findActionType, findOperatorDirection)
    requires Truthy(Field(op, MinimumRequiredKey))
    requires IsRenaming(Exportable(Editable(op, first, findActionType, findOperatorDirection)), exported, snake)
    ensures IsRenaming(op, exported, snake)
  {
    var e := Editable(op, first, findActionType, findOperatorDirection);
    EditableLists(op, first, findActionType, findOperatorDirection);
    EditableKeepsDocument(op, first, findActionType, findOperatorDirection);
    StrippedImportedLists(op, e, first, findActionType, findOperatorDirection);
    ExportOfImported(op, e);
  }

  /** When keys are kept as they are, the round trip gives back the very document. */
  lemma RoundTripIdentity(op: Value, first: nat, findActionType: Option<Value> -> string,
                          findOperatorDirection: Option<Value> -> Option<string>, exported: Value)
    requires EditableShape(op) && IdFree(op) && Canonical(op, findActionType, findOperatorDirection)
    requires Truthy(Field(op, MinimumRequiredKey))
    requires IsRenaming(Exportable(Editable(op, first, findActionType, findOperatorDirection)), exported, k => k)
    ensures exported == op
  {
    RoundTrip(op, first, findActionType, findOperatorDirection, k => k, exported);
    RenamingIdentity(op, exported);
  }

  // ---------------------------------------------------------------------------
  // patchOperation

  /** The shape the patch relies on: a document whose `doc`, when set, is an object. */
  predicate PatchShape(op: Value) {
    op.Obj? && (Truthy(Field(op, DocKey)) ==> Field(op, DocKey).value.Obj?)
  }

  /** `if (doc) doc.details ||= doc.title`. Assigning a missing title leaves `details`
      undefined, which the serialised document does not hold: the field is removed. */
  function Patched(op: Value): Value
    requires PatchShape(op)
  {
    var doc := Field(op, DocKey);
    if Truthy(doc) && !Truthy(Field(doc.value, DetailsKey)) then
      var title := Field(doc.value, TitleKey);
      SetField(op, DocKey,
               if title.Some? then SetField(doc.value, DetailsKey, title.value)
               else DeleteField(doc.value, DetailsKey))
    else
      op
  }

  /** The patch, updating the document in place. */
  method PatchOperation(operation: Document)
    requires PatchShape(operation.root)
    modifies operation
    ensures operation.root == Patched(old(operation.root))
  {
    var doc := Field(operation.root, DocKey);
    if Truthy(doc) {
      var details := Field(doc.value, DetailsKey);
      if !Truthy(details) {
        var title := Field(doc.value, TitleKey);
        var newDoc: Value;
        if title.Some? {
          newDoc := SetField(doc.value, DetailsKey, title.value);
        } else {
          newDoc := DeleteField(doc.value, DetailsKey);
        }
        operation.root := SetField(operation.root, DocKey, newDoc);
      }
    }
  }

  /** The patch touches only `doc.details`: it leaves a document without `doc` alone,
      keeps set details, and otherwise copies the title into them. */
  lemma PatchedDetails(op: Value)
    requires PatchShape(op)
    ensures var r := Patched(op);
            && PatchShape(r)
            && Keeps(op, r, {DocKey})
            && (!Truthy(Field(op, DocKey)) ==> r == op)
            && (Truthy(Field(op, DocKey)) ==>
                  var doc, patched := Field(op, DocKey).value, Field(r, DocKey).value;
                  && Field(r, DocKey).Some?
                  && Keeps(doc, patched, {DetailsKey})
                  && Field(patched, DetailsKey) ==
                     (if Truthy(Field(doc, DetailsKey)) then Field(doc, DetailsKey) else Field(doc, TitleKey)))
  {
  }

  /** After the patch, the details are set exactly when the details or the title were. */
  lemma PatchedDetailsSet(op: Value)
    requires PatchShape(op) && Truthy(Field(op, DocKey))
    ensures var doc, patched := Field(op, DocKey).value, Field(Patched(op), DocKey).value;
            Truthy(Field(patched, DetailsKey)) <==> Truthy(Field(doc, DetailsKey)) || Truthy(Field(doc, TitleKey))
  {
    PatchedDetails(op);
  }

  /** Patching twice is patching once. */
  lemma PatchIdempotent(op: Value)
    requires PatchShape(op)
    ensures PatchShape(Patched(op)) && Patched(Patched(op)) == Patched(op)
  {
    PatchedDetails(op);
    var r := Patched(op);
    if Truthy(Field(op, DocKey)) && !Truthy(Field(Field(op, DocKey).value, DetailsKey)) {
      var patched := Field(r, DocKey).value;
      assert Field(patched, TitleKey) == Field(Field(op, DocKey).value, TitleKey);
      PatchedDetails(r);
      var again := Field(Patched(r), DocKey).value;
      assert again.fields == patched.fields;
      SameObject(Patched(r), r);
    }
  }
}
