/** The advanced-personalization panel of the dashboard: an ordered list of labelled
    fields the user fills in, the quick-add buttons for the predefined labels of each
    category, and the grouping of the list by category for display. */
module Personalization {
  import opened Wrappers
  import opened Strings

  datatype Category = Recipient | Company | Context | Offer

  datatype FieldKind = Text | TextArea

  datatype Field = Field(id: string, name: string, value: string, kind: FieldKind, category: Category)

  /** The list the panel starts from: the fields it was given, or four empty ones. */
  function InitialFields(initial: seq<Field>): (r: seq<Field>)
    ensures |initial| > 0 ==> r == initial
    ensures |initial| == 0 ==> (|r| == 4
      && r[0].name == "Recipient Name" && r[0].category == Recipient
      && r[1].name == "Company Name" && r[1].category == Company
      && r[2].name == "Industry" && r[2].category == Company
      && r[3].name == "Pain Point" && r[3].category == Context)
    ensures |initial| == 0 ==> forall k :: 0 <= k < |r| ==> r[k].value == "" && r[k].kind == Text
  {
    if |initial| > 0 then initial
    else [
      Field("1", "Recipient Name", "", Text, Recipient),
      Field("2", "Company Name", "", Text, Company),
      Field("3", "Industry", "", Text, Company),
      Field("4", "Pain Point", "", Text, Context)
    ]
  }

  /** The quick-add labels offered for each category. */
  function Predefined(c: Category): seq<string> {
    match c
    case Recipient =>
      ["Recipient Name", "Recipient Title", "Department", "Years of Experience", "Location",
       "LinkedIn Profile"]
    case Company =>
      ["Company Name", "Industry", "Company Size", "Revenue", "Recent News", "Competitors",
       "Company Achievement"]
    case Context =>
      ["Pain Point", "Previous Interaction", "Mutual Connection", "Specific Challenge",
       "Goal/Objective", "Timeline"]
    case Offer =>
      ["Product/Service", "Unique Value Proposition", "Pricing", "Special Offer", "Success Story",
       "ROI/Benefit"]
  }

  /** A field is edited in a text area when its name mentions a description or a challenge. */
  function KindFor(name: string): FieldKind {
    if Contains(name, "Description") || Contains(name, "Challenge") then TextArea else Text
  }

  // ---------------------------------------------------------------------------
  // Editing the list
  // ---------------------------------------------------------------------------

  /** Appends a new empty field; its id is the decimal clock reading `now`. */
  function AddField(fields: seq<Field>, name: string, category: Category, now: nat): (r: seq<Field>)
    ensures |r| == |fields| + 1
    ensures r[..|fields|] == fields
    ensures r[|fields|].id == NatToString(now)
    ensures r[|fields|].name == name && r[|fields|].category == category
    ensures r[|fields|].value == ""
    ensures r[|fields|].kind == TextArea <==> Contains(name, "Description") || Contains(name, "Challenge")
  {
    fields + [Field(NatToString(now), name, "", KindFor(name), category)]
  }

  /** The fields whose id differs from `id`, in their order. */
  function RemoveField(fields: seq<Field>, id: string): (r: seq<Field>)
    ensures |r| <= |fields|
    ensures forall k :: 0 <= k < |r| ==> r[k].id != id && r[k] in fields
    ensures forall f :: f in fields && f.id != id ==> f in r
    decreases |fields|
  {
    if |fields| == 0 then []
    else if fields[0].id == id then RemoveField(fields[1..], id)
    else [fields[0]] + RemoveField(fields[1..], id)
  }

  /** Gives every field with that id the new value. */
  function UpdateField(fields: seq<Field>, id: string, value: string): (r: seq<Field>)
    ensures |r| == |fields|
    ensures forall k :: 0 <= k < |r| ==>
      r[k].id == fields[k].id && r[k].name == fields[k].name
      && r[k].kind == fields[k].kind && r[k].category == fields[k].category
    ensures forall k :: 0 <= k < |r| ==>
      r[k].value == (if fields[k].id == id then value else fields[k].value)
  {
    seq(|fields|, k requires 0 <= k < |fields| =>
      if fields[k].id == id then fields[k].(value := value) else fields[k])
  }

  /** The custom-field button: the answer to the name prompt, which the user may
      dismiss, becomes a context field when it is not blank. */
  function AddCustomField(fields: seq<Field>, answer: Option<string>, now: nat): (r: seq<Field>)
    ensures (answer.Some? && Trim(answer.value) != "") ==>
      r == AddField(fields, Trim(answer.value), Context, now)
    ensures !(answer.Some? && Trim(answer.value) != "") ==> r == fields
  {
    if answer.Some? && Trim(answer.value) != "" then AddField(fields, Trim(answer.value), Context, now)
    else fields
  }

  /** Removing an id nobody has leaves the list as it is. */
  lemma {:induction false} RemoveAbsent(fields: seq<Field>, id: string)
    requires forall k :: 0 <= k < |fields| ==> fields[k].id != id
    ensures RemoveField(fields, id) == fields
    decreases |fields|
  {
    if |fields| > 0 {
      RemoveAbsent(fields[1..], id);
      assert [fields[0]] + fields[1..] == fields;
    }
  }

  /** Removing twice is removing once. */
  lemma RemoveIdempotent(fields: seq<Field>, id: string)
    ensures RemoveField(RemoveField(fields, id), id) == RemoveField(fields, id)
  {
    RemoveAbsent(RemoveField(fields, id), id);
  }

  /** Removing distributes over concatenation. */
  lemma {:induction false} RemoveAppend(a: seq<Field>, b: seq<Field>, id: string)
    ensures RemoveField(a + b, id) == RemoveField(a, id) + RemoveField(b, id)
    decreases |a|
  {
    if |a| > 0 {
      assert (a + b)[1..] == a[1..] + b;
      RemoveAppend(a[1..], b, id);
    } else {
      assert a + b == b;
    }
  }

  /** Adding a field under a fresh clock reading and then removing it restores the list. */
  lemma AddThenRemove(fields: seq<Field>, name: string, category: Category, now: nat)
    requires forall k :: 0 <= k < |fields| ==> fields[k].id != NatToString(now)
    ensures RemoveField(AddField(fields, name, category, now), NatToString(now)) == fields
  {
    var f := Field(NatToString(now), name, "", KindFor(name), category);
    RemoveAppend(fields, [f], NatToString(now));
    RemoveAbsent(fields, NatToString(now));
    assert RemoveField([f], NatToString(now)) == [];
  }

  /** Removing a field forgets any value it was given. */
  lemma {:induction false} UpdateThenRemove(fields: seq<Field>, id: string, value: string)
    ensures RemoveField(UpdateField(fields, id, value), id) == RemoveField(fields, id)
    decreases |fields|
  {
    if |fields| > 0 {
      UpdateThenRemove(fields[1..], id, value);
      assert UpdateField(fields, id, value)[1..] == UpdateField(fields[1..], id, value);
    }
  }

  /** Of two updates of the same field, the later one wins. */
  lemma UpdateTwice(fields: seq<Field>, id: string, v1: string, v2: string)
    ensures UpdateField(UpdateField(fields, id, v1), id, v2) == UpdateField(fields, id, v2)
  {
  }

  // ---------------------------------------------------------------------------
  // Quick-add labels
  // ---------------------------------------------------------------------------

  function Labels(fields: seq<Field>): seq<string>
  {
    seq(|fields|, k requires 0 <= k < |fields| => fields[k].name)
  }

  /** The candidates no field of the list, whatever its category, is labelled with. */
  function Unused(candidates: seq<string>, fields: seq<Field>): (r: seq<string>)
    decreases |candidates|
  {
    if |candidates| == 0 then []
    else if candidates[0] in Labels(fields) then Unused(candidates[1..], fields)
    else [candidates[0]] + Unused(candidates[1..], fields)
  }

  /** A name is offered iff it is a candidate and no field uses it. */
  lemma {:induction false} UnusedIff(candidates: seq<string>, fields: seq<Field>, l: string)
    ensures l in Unused(candidates, fields) <==>
      l in candidates && forall k :: 0 <= k < |fields| ==> fields[k].name != l
    decreases |candidates|
  {
    if |candidates| > 0 {
      UnusedIff(candidates[1..], fields, l);
      assert candidates == [candidates[0]] + candidates[1..];
      if l !in Labels(fields) {
        forall k | 0 <= k < |fields|
          ensures fields[k].name != l
        {
          assert Labels(fields)[k] == fields[k].name;
        }
      }
    }
  }

  /** The offered labels keep the order of the candidates. */
  lemma {:induction false} UnusedSubsequence(candidates: seq<string>, fields: seq<Field>)
    ensures |Unused(candidates, fields)| <= |candidates|
    ensures Unused(candidates, fields) == [] <==>
      forall k :: 0 <= k < |candidates| ==> candidates[k] in Labels(fields)
    decreases |candidates|
  {
    if |candidates| > 0 {
      UnusedSubsequence(candidates[1..], fields);
      assert forall k :: 1 <= k < |candidates| ==> candidates[k] == candidates[1..][k - 1];
    }
  }

  /** The quick-add buttons of a category. */
  function QuickAdd(fields: seq<Field>, c: Category): seq<string> {
    Unused(Predefined(c), fields)
  }

  /** The quick-add section of a category is shown iff some predefined name of it is
      still unused. */
  predicate QuickAddShown(fields: seq<Field>, c: Category) {
    |QuickAdd(fields, c)| > 0
  }

  lemma QuickAddSpec(fields: seq<Field>, c: Category, l: string)
    ensures l in QuickAdd(fields, c) <==>
      l in Predefined(c) && forall k :: 0 <= k < |fields| ==> fields[k].name != l
    ensures QuickAddShown(fields, c) <==> exists k :: 0 <= k < |Predefined(c)| && Predefined(c)[k] !in Labels(fields)
  {
    UnusedIff(Predefined(c), fields, l);
    UnusedSubsequence(Predefined(c), fields);
  }

  // ---------------------------------------------------------------------------
  // Grouping by category
  // ---------------------------------------------------------------------------

  datatype Group = Group(category: Category, members: seq<Field>)

  /** One step of the reduce: the field joins the group of its category, which is
      opened at the end when there is none yet. */
  function Push(groups: seq<Group>, f: Field): (r: seq<Group>)
    decreases |groups|
  {
    if |groups| == 0 then [Group(f.category, [f])]
    else if groups[0].category == f.category then
      [groups[0].(members := groups[0].members + [f])] + groups[1..]
    else [groups[0]] + Push(groups[1..], f)
  }

  /** `groupedFields`: the list reduced from left to right into groups. */
  function GroupedFields(fields: seq<Field>): seq<Group>
    decreases |fields|
  {
    if |fields| == 0 then []
    else Push(GroupedFields(fields[..|fields| - 1]), fields[|fields| - 1])
  }

  /** The fields of one category, in list order. */
  function OfCategory(fields: seq<Field>, c: Category): (r: seq<Field>)
    ensures forall k :: 0 <= k < |r| ==> r[k].category == c && r[k] in fields
    decreases |fields|
  {
    if |fields| == 0 then []
    else OfCategory(fields[..|fields| - 1], c) + (if fields[|fields| - 1].category == c then [fields[|fields| - 1]] else [])
  }

  function GroupCategories(groups: seq<Group>): (r: seq<Category>)
    ensures |r| == |groups|
    ensures forall i :: 0 <= i < |groups| ==> r[i] == groups[i].category
  {
    seq(|groups|, i requires 0 <= i < |groups| => groups[i].category)
  }

  /** The groups of a list: one per category present, no two alike, each holding
      exactly the fields of its category in list order. */
  predicate Keyed(groups: seq<Group>, fields: seq<Field>) {
    (forall i, j :: 0 <= i < j < |groups| ==> groups[i].category != groups[j].category)
    && (forall i :: 0 <= i < |groups| ==> groups[i].members == OfCategory(fields, groups[i].category))
    && (forall i :: 0 <= i < |groups| ==> |groups[i].members| > 0)
    && (forall k :: 0 <= k < |fields| ==> fields[k].category in GroupCategories(groups))
  }

  /** Total number of fields over all groups. */
  function Members(groups: seq<Group>): nat
    decreases |groups|
  {
    if |groups| == 0 then 0 else |groups[0].members| + Members(groups[1..])
  }

  lemma {:induction false} PushCategories(groups: seq<Group>, f: Field)
    ensures f.category in GroupCategories(groups) ==> GroupCategories(Push(groups, f)) == GroupCategories(groups)
    ensures f.category !in GroupCategories(groups) ==> GroupCategories(Push(groups, f)) == GroupCategories(groups) + [f.category]
    decreases |groups|
  {
    if |groups| > 0 && groups[0].category != f.category {
      PushCategories(groups[1..], f);
      assert GroupCategories(groups) == [groups[0].category] + GroupCategories(groups[1..]);
    }
  }

  lemma {:induction false} PushMembers(groups: seq<Group>, f: Field)
    ensures Members(Push(groups, f)) == Members(groups) + 1
    decreases |groups|
  {
    if |groups| > 0 {
      if groups[0].category == f.category {
        assert Push(groups, f)[1..] == groups[1..];
      } else {
        PushMembers(groups[1..], f);
        assert Push(groups, f)[1..] == Push(groups[1..], f);
      }
    }
  }

  /** Pushing into groups with distinct categories updates only the group of the
      field's category, or opens one at the end. */
  lemma {:induction false} PushShape(groups: seq<Group>, f: Field)
    requires forall i, j :: 0 <= i < j < |groups| ==> groups[i].category != groups[j].category
    ensures |Push(groups, f)| == if f.category in GroupCategories(groups) then |groups| else |groups| + 1
    ensures forall i :: 0 <= i < |groups| ==> (Push(groups, f)[i] ==
      if groups[i].category == f.category then groups[i].(members := groups[i].members + [f]) else groups[i])
    ensures f.category !in GroupCategories(groups) ==> Push(groups, f)[|groups|] == Group(f.category, [f])
    decreases |groups|
  {
    PushCategories(groups, f);
    if |groups| > 0 {
      if groups[0].category == f.category {
        assert forall i :: 1 <= i < |groups| ==> groups[i].category != f.category;
      } else {
        PushShape(groups[1..], f);
        assert forall i :: 1 <= i < |groups| ==> Push(groups, f)[i] == Push(groups[1..], f)[i - 1];
      }
    }
  }

  /** A category no field has selects nothing. */
  lemma NoneOfCategory(fields: seq<Field>, c: Category)
    requires forall k :: 0 <= k < |fields| ==> fields[k].category != c
    ensures OfCategory(fields, c) == []
  {
  }

  lemma PushKeyed(groups: seq<Group>, fields: seq<Field>, f: Field)
    requires Keyed(groups, fields)
    ensures Keyed(Push(groups, f), fields + [f])
  {
    var r := Push(groups, f);
    var all := fields + [f];
    PushShape(groups, f);
    PushCategories(groups, f);
    assert all[..|all| - 1] == fields;
    forall i | 0 <= i < |r|
      ensures r[i].members == OfCategory(all, r[i].category)
    {
      var c := r[i].category;
      assert OfCategory(all, c) == OfCategory(fields, c) + (if f.category == c then [f] else []);
      if i == |groups| {
        forall k | 0 <= k < |fields|
          ensures fields[k].category != c
        {
        }
        NoneOfCategory(fields, c);
      }
    }
    forall k | 0 <= k < |all|
      ensures all[k].category in GroupCategories(r)
    {
      if k < |fields| {
        assert all[k] == fields[k];
      }
    }
  }

  /** `groupedFields` partitions the list: the groups are keyed by the categories
      present, each group is the list filtered to its category, and no field is
      lost or repeated. */
  lemma {:induction false} GroupedFieldsSpec(fields: seq<Field>)
    ensures Keyed(GroupedFields(fields), fields)
    ensures Members(GroupedFields(fields)) == |fields|
    decreases |fields|
  {
    if |fields| > 0 {
      var init, f := fields[..|fields| - 1], fields[|fields| - 1];
      assert init + [f] == fields;
      var groups := GroupedFields(init);
      assert GroupedFields(fields) == Push(groups, f);
      GroupedFieldsSpec(init);
      PushKeyed(groups, init, f);
      PushMembers(groups, f);
    }
  }

  /** Hence a field sits in exactly the group of its category. */
  lemma FieldInOneGroup(fields: seq<Field>, k: nat, i: nat)
    requires k < |fields| && i < |GroupedFields(fields)|
    ensures fields[k] in GroupedFields(fields)[i].members ==> GroupedFields(fields)[i].category == fields[k].category
  {
    GroupedFieldsSpec(fields);
  }
}
