/** The client-side family tree (apps/web/components/family-tree/index.tsx):
    the in-memory members and relationships, the delete and submit handlers
    that change them, and the node and edge lists handed to the layout
    library. The layout itself is not modelled. */
module TreeView {
  import opened Wrappers
  import opened Text
  import opened CoreTypes
  import opened Seqs
  import opened MemberForm
  import TreeActions

  /** The component's state: the data, the person the modals act on, the
      relation chosen in the selection dialog, and whether the form is open. */
  datatype TreeState = TreeState(
    members: seq<Member>,
    relationships: seq<Relationship>,
    selected: Option<Member>,
    relationType: Option<string>,
    formOpen: bool)

  // ---------------------------------------------------------------------
  // handleDelete

  /** The member test of `handleDelete`: `m => m.id !== id`. */
  function KeepsMember(id: Id): Member -> bool {
    (m: Member) => m.id != id
  }

  /** The relationship test of `handleDelete`: neither end is `id`. */
  function KeepsRelationship(id: Id): Relationship -> bool {
    (r: Relationship) => !Touches(r, id)
  }

  /** `handleDelete(id)`: drops the member and cascades to every relationship
      that touches it; closes the form and clears the selection. */
  function HandleDelete(s: TreeState, id: Id): (t: TreeState)
    ensures forall m :: m in t.members <==> m in s.members && m.id != id
    ensures forall r :: r in t.relationships <==> r in s.relationships && !Touches(r, id)
    ensures IsSubsequence(t.members, s.members)
    ensures IsSubsequence(t.relationships, s.relationships)
    ensures forall m :: multiset(t.members)[m] == if m.id != id then multiset(s.members)[m] else 0
    ensures forall r :: multiset(t.relationships)[r] ==
              if !Touches(r, id) then multiset(s.relationships)[r] else 0
    ensures !t.formOpen && t.selected.None? && t.relationType == s.relationType
  {
    FilterMultiset(s.members, KeepsMember(id));
    FilterMultiset(s.relationships, KeepsRelationship(id));
    FilterIsSubsequence(s.members, KeepsMember(id));
    FilterIsSubsequence(s.relationships, KeepsRelationship(id));
    TreeState(Filter(s.members, KeepsMember(id)), Filter(s.relationships, KeepsRelationship(id)),
              None, s.relationType, false)
  }

  /** Cascading delete leaves no dangling relationship behind. */
  lemma DeleteKeepsClosed(s: TreeState, id: Id)
    requires ReferentiallyClosed(s.members, s.relationships)
    ensures var t := HandleDelete(s, id); ReferentiallyClosed(t.members, t.relationships)
  {
    var t := HandleDelete(s, id);
    forall r | r in t.relationships
      ensures (exists m :: m in t.members && m.id == r.fromId)
      ensures (exists m :: m in t.members && m.id == r.toId)
    {
      var a :| a in s.members && a.id == r.fromId;
      var b :| b in s.members && b.id == r.toId;
      assert a in t.members && b in t.members;
    }
  }

  /** Deleting an id nobody has and no relationship touches changes no data. */
  lemma DeleteUnknownIdKeepsData(s: TreeState, id: Id)
    requires forall i :: 0 <= i < |s.members| ==> s.members[i].id != id
    requires forall i :: 0 <= i < |s.relationships| ==> !Touches(s.relationships[i], id)
    ensures HandleDelete(s, id).members == s.members
    ensures HandleDelete(s, id).relationships == s.relationships
  {
    FilterKeepsAll(s.members, KeepsMember(id));
    FilterKeepsAll(s.relationships, KeepsRelationship(id));
  }

  // ---------------------------------------------------------------------
  // handleFormSubmit

  /** The client's own reading of the relation word: "partner" makes a
      partner, "son"/"daughter" a child, "father"/"mother" a parent, and every
      other word a sibling. */
  function ClientRole(word: string): (r: TreeActions.Role)
    ensures r == TreeActions.PartnerOfRelative <==> word == "partner"
    ensures r == TreeActions.ChildOfRelative <==> word in {"son", "daughter"}
    ensures r == TreeActions.ParentOfRelative <==> word in {"father", "mother"}
  {
    if word == "partner" then TreeActions.PartnerOfRelative
    else if word in {"son", "daughter"} then TreeActions.ChildOfRelative
    else if word in {"father", "mother"} then TreeActions.ParentOfRelative
    else TreeActions.SiblingOfRelative
  }

  /** The relationship the handler builds: first typed by the nested
      conditional (which types "father"/"mother" as `child`), then, for
      "father"/"mother", rewritten to a `parent` edge from the new member. */
  function ClientEdge(word: string, selectedId: Id, newId: Id): (e: TreeActions.EdgeSpec)
    ensures e == TreeActions.EdgeFor(ClientRole(word), selectedId, newId)
  {
    var kind := if word == "partner" then Spouse
                else if word in {"son", "daughter"} then Parent
                else if word in {"father", "mother"} then Child
                else Sibling;
    if word in {"father", "mother"} then TreeActions.EdgeSpec(newId, selectedId, Parent)
    else TreeActions.EdgeSpec(selectedId, newId, kind)
  }

  /** The words the relation picker offers. */
  const PickerWords: set<string> := {"father", "mother", "partner", "brother", "sister", "son", "daughter"}

  /** Client and server agree on a relation word exactly for the picker's
      words and "sibling"; "husband", "wife", "spouse", "parent", "child" and
      unknown words are read differently. */
  lemma ClientServerAgreement(word: string)
    ensures ClientRole(word) == TreeActions.ServerRole(word) <==> word in PickerWords + {"sibling"}
  {
  }

  /** The member fields a submission carries. A linking payload has only the
      keys `existingMemberId` and `relationshipStatus`, neither of them a
      member field, so it reads as an empty partial member. */
  function SubmittedFields(payload: Submission): Patch {
    match payload
    case NewPerson(fields, _) => fields
    case LinkExisting(_, _) => EmptyPatch
  }

  /** The field got the submitted value when its key was present, and stayed
      undefined otherwise. */
  predicate Takes<T(==)>(key: Field<T>, value: Option<T>) {
    if key.Some? then value == key.value else value.None?
  }

  /** `{ id, firstName: data.firstName || "Ukjent", lastName: data.lastName ||
      "Ukjent", ...data }`: the submitted keys override the defaults, so a
      submitted "" name stays "". */
  function NewMember(data: Patch, freshId: Id): (m: Member)
    ensures m.id == Over(data.id, freshId)
    ensures m.firstName == Over(data.firstName, "Ukjent")
    ensures m.lastName == Over(data.lastName, "Ukjent")
    ensures Takes(data.userId, m.userId) && Takes(data.middleName, m.middleName) &&
            Takes(data.title, m.title) && Takes(data.gender, m.gender)
    ensures Takes(data.birthDate, m.birthDate) && Takes(data.birthPlace, m.birthPlace) &&
            Takes(data.deathDate, m.deathDate) && Takes(data.isDeceased, m.isDeceased)
    ensures Takes(data.avatarUrl, m.avatarUrl) && Takes(data.bio, m.bio) &&
            Takes(data.address, m.address) && Takes(data.zipCode, m.zipCode) && Takes(data.city, m.city)
    ensures Takes(data.email, m.email) && Takes(data.phone, m.phone) && Takes(data.role, m.role)
  {
    var base := NamedMember(freshId, OrDefault(data.firstName, "Ukjent"), OrDefault(data.lastName, "Ukjent"));
    ApplyPatch(base, data)
  }

  /** Editing: a selected person and no relation word. */
  predicate IsEdit(s: TreeState) {
    s.selected.Some? && !Truthy(s.relationType)
  }

  /** Adding: a selected person and a relation word. */
  predicate IsAdd(s: TreeState) {
    s.selected.Some? && Truthy(s.relationType)
  }

  /** Merges the submitted fields onto every member with the selected id. */
  function EditMembers(members: seq<Member>, selectedId: Id, data: Patch): (r: seq<Member>)
    ensures |r| == |members|
    ensures forall i :: 0 <= i < |members| ==>
              r[i] == (if members[i].id == selectedId then ApplyPatch(members[i], data) else members[i])
  {
    seq(|members|, i requires 0 <= i < |members| =>
          if members[i].id == selectedId then ApplyPatch(members[i], data) else members[i])
  }

  /** `handleFormSubmit(data)` as written: an edit merges the fields into the
      selected member; an add appends one new member and one relationship
      from the client's reading of the relation word; with nobody selected
      nothing happens. `freshMemberId` and `freshRelationshipId` stand for the
      two random ids. */
  function HandleFormSubmit(s: TreeState, payload: Submission, freshMemberId: Id, freshRelationshipId: Id)
    : (t: TreeState)
    ensures IsEdit(s) ==>
              t == s.(members := EditMembers(s.members, s.selected.value.id, SubmittedFields(payload)),
                      formOpen := false)
    ensures s.selected.None? ==> t == s
    ensures IsAdd(s) ==>
              var m := NewMember(SubmittedFields(payload), freshMemberId);
              var e := ClientEdge(s.relationType.value, s.selected.value.id, m.id);
              t == s.(members := s.members + [m],
                      relationships := s.relationships +
                        [Relationship(freshRelationshipId, e.fromId, e.toId, e.kind)],
                      formOpen := false)
  {
    var data := SubmittedFields(payload);
    if IsEdit(s) then
      s.(members := EditMembers(s.members, s.selected.value.id, data), formOpen := false)
    else if s.selected.None? || !Truthy(s.relationType) then
      s
    else
      var m := NewMember(data, freshMemberId);
      var e := ClientEdge(s.relationType.value, s.selected.value.id, m.id);
      s.(members := s.members + [m],
         relationships := s.relationships + [Relationship(freshRelationshipId, e.fromId, e.toId, e.kind)],
         formOpen := false)
  }

  /** An edit changes only the members carrying the selected id and leaves the
      relationships alone. */
  lemma EditTouchesOnlySelected(s: TreeState, payload: Submission, freshMemberId: Id, freshRelationshipId: Id)
    requires IsEdit(s)
    ensures var t := HandleFormSubmit(s, payload, freshMemberId, freshRelationshipId);
            t.relationships == s.relationships && |t.members| == |s.members| &&
            forall i :: 0 <= i < |s.members| && s.members[i].id != s.selected.value.id ==>
              t.members[i] == s.members[i]
  {
  }

  /** Saving the edit form without touching it changes no member, provided
      the selected member is the one stored under its id. */
  lemma UntouchedEditChangesNothing(s: TreeState, f: FormState, freshMemberId: Id, freshRelationshipId: Id)
    requires IsEdit(s)
    requires forall i :: 0 <= i < |s.members| && s.members[i].id == s.selected.value.id ==>
               s.members[i] == s.selected.value
    ensures var form := Reset(f, s.selected, s.relationType);
            var t := HandleFormSubmit(s, HandleSubmit(form, s.relationType), freshMemberId, freshRelationshipId);
            t.members == s.members && t.relationships == s.relationships
  {
    var m := s.selected.value;
    var form := Reset(f, s.selected, s.relationType);
    var t := HandleFormSubmit(s, HandleSubmit(form, s.relationType), freshMemberId, freshRelationshipId);
    forall i | 0 <= i < |s.members| ensures t.members[i] == s.members[i] {
      if s.members[i].id == m.id {
        ApplyOwnPatch(s.members[i], m);
      }
    }
  }

  /** A successful add keeps the data closed when the selected person is a
      member: both ends of the new relationship exist. */
  lemma AddKeepsClosed(s: TreeState, payload: Submission, freshMemberId: Id, freshRelationshipId: Id)
    requires IsAdd(s) && s.selected.value in s.members
    requires ReferentiallyClosed(s.members, s.relationships)
    ensures var t := HandleFormSubmit(s, payload, freshMemberId, freshRelationshipId);
            ReferentiallyClosed(t.members, t.relationships)
  {
    var t := HandleFormSubmit(s, payload, freshMemberId, freshRelationshipId);
    var m := NewMember(SubmittedFields(payload), freshMemberId);
    assert m in t.members && s.selected.value in t.members;
    forall r | r in t.relationships
      ensures (exists x :: x in t.members && x.id == r.fromId)
      ensures (exists x :: x in t.members && x.id == r.toId)
    {
      if r !in s.relationships {
        assert r == t.relationships[|t.relationships| - 1];
      } else {
        var a :| a in s.members && a.id == r.fromId;
        var b :| b in s.members && b.id == r.toId;
        assert a in t.members && b in t.members;
      }
    }
  }

  /** The linking payload is not linked: adding a partner by choosing an
      existing member creates a placeholder "Ukjent Ukjent" and attaches the
      relationship to it instead of to the chosen member. */
  lemma LinkingCreatesPlaceholder(s: TreeState, existingId: Id, status: Option<string>,
                                  freshMemberId: Id, freshRelationshipId: Id)
    requires IsAdd(s) && s.relationType.value == "partner"
    requires freshMemberId != existingId
    ensures var t := HandleFormSubmit(s, LinkExisting(existingId, status), freshMemberId, freshRelationshipId);
            |t.members| == |s.members| + 1 &&
            t.members[|s.members|] == NamedMember(freshMemberId, "Ukjent", "Ukjent") &&
            t.relationships[|s.relationships|].toId == freshMemberId &&
            t.relationships[|s.relationships|].toId != existingId
  {
  }

  /** The evident intent of the linking mode: attach the relationship to the
      chosen member and add no member. Other submissions behave as before. */
  function HandleFormSubmitLinking(s: TreeState, payload: Submission, freshMemberId: Id, freshRelationshipId: Id)
    : (t: TreeState)
    ensures !(IsAdd(s) && payload.LinkExisting?) ==>
              t == HandleFormSubmit(s, payload, freshMemberId, freshRelationshipId)
    ensures IsAdd(s) && payload.LinkExisting? ==>
              t.members == s.members && |t.relationships| == |s.relationships| + 1 &&
              t.relationships[..|s.relationships|] == s.relationships &&
              var r := t.relationships[|s.relationships|];
              r.id == freshRelationshipId &&
              TreeActions.EdgeSpec(r.fromId, r.toId, r.kind) ==
                TreeActions.EdgeFor(ClientRole(s.relationType.value), s.selected.value.id,
                                    payload.existingMemberId)
  {
    if IsAdd(s) && payload.LinkExisting? then
      var e := ClientEdge(s.relationType.value, s.selected.value.id, payload.existingMemberId);
      s.(relationships := s.relationships + [Relationship(freshRelationshipId, e.fromId, e.toId, e.kind)],
         formOpen := false)
    else
      HandleFormSubmit(s, payload, freshMemberId, freshRelationshipId)
  }

  /** Linking an existing member keeps the data closed. */
  lemma LinkingKeepsClosed(s: TreeState, existingId: Id, status: Option<string>,
                           freshMemberId: Id, freshRelationshipId: Id)
    requires IsAdd(s) && s.selected.value in s.members
    requires exists x :: x in s.members && x.id == existingId
    requires ReferentiallyClosed(s.members, s.relationships)
    ensures var t := HandleFormSubmitLinking(s, LinkExisting(existingId, status), freshMemberId, freshRelationshipId);
            ReferentiallyClosed(t.members, t.relationships)
  {
    var t := HandleFormSubmitLinking(s, LinkExisting(existingId, status), freshMemberId, freshRelationshipId);
    var x :| x in s.members && x.id == existingId;
    forall r | r in t.relationships
      ensures (exists y :: y in t.members && y.id == r.fromId)
      ensures (exists y :: y in t.members && y.id == r.toId)
    {
      if r !in s.relationships {
        assert r == t.relationships[|t.relationships| - 1];
        assert x in t.members && s.selected.value in t.members;
      }
    }
  }
  /** A member picked from the form's list of existing members can be linked
      without leaving a dangling relationship. */
  lemma LinkingAChoiceKeepsClosed(s: TreeState, initialData: Option<Member>, chosen: Member,
                                  status: Option<string>, freshMemberId: Id, freshRelationshipId: Id)
    requires IsAdd(s) && s.selected.value in s.members
    requires ReferentiallyClosed(s.members, s.relationships)
    requires chosen in AvailableExistingMembers(s.members, initialData)
    ensures var t := HandleFormSubmitLinking(s, LinkExisting(chosen.id, status), freshMemberId, freshRelationshipId);
            ReferentiallyClosed(t.members, t.relationships)
  {
    assert chosen in s.members;
    LinkingKeepsClosed(s, chosen.id, status, freshMemberId, freshRelationshipId);
  }

  /** Confirming the delete in the edit form removes the edited member and
      every relationship that touches it. */
  lemma DeleteTargetRemovesMember(s: TreeState, initialData: Option<Member>)
    requires DeleteTarget(initialData).Some?
    ensures var t := HandleDelete(s, DeleteTarget(initialData).value);
            (forall m :: m in t.members ==> m.id != initialData.value.id) &&
            (forall r :: r in t.relationships ==> !Touches(r, initialData.value.id))
  {
  }


  // ---------------------------------------------------------------------
  // Layout input

  /** A layout node: the member's id, its first name as label, the member. */
  datatype FlowNode = FlowNode(id: Id, labelText: string, member: Member)

  /** A layout edge: `id`, `source` and `target`. */
  datatype FlowEdge = FlowEdge(id: Id, source: Id, target: Id)

  function FlowEdgeOf(r: Relationship): FlowEdge {
    FlowEdge(r.id, r.fromId, r.toId)
  }

  /** One node per member, in order. */
  function LayoutNodes(members: seq<Member>): (nodes: seq<FlowNode>)
    ensures |nodes| == |members|
    ensures forall i :: 0 <= i < |members| ==>
              nodes[i].id == members[i].id && nodes[i].labelText == members[i].firstName &&
              nodes[i].member == members[i]
  {
    seq(|members|, i requires 0 <= i < |members| => FlowNode(members[i].id, members[i].firstName, members[i]))
  }

  /** The edges handed to the layout: the `parent` relationships only, one
      edge each, from the parent to the child. */
  function LayoutEdges(relationships: seq<Relationship>): (edges: seq<FlowEdge>)
    ensures |edges| <= |relationships|
    ensures forall e :: e in edges <==>
              exists r :: r in relationships && r.kind == Parent && e == FlowEdgeOf(r)
  {
    if |relationships| == 0 then []
    else
      var r := relationships[0];
      var rest := LayoutEdges(relationships[1..]);
      assert relationships == [r] + relationships[1..];
      if r.kind == Parent then [FlowEdgeOf(r)] + rest else rest
  }

  /** The projection keeps the order of the relationships it projects. */
  lemma {:induction false} LayoutEdgesAppend(a: seq<Relationship>, b: seq<Relationship>)
    ensures LayoutEdges(a + b) == LayoutEdges(a) + LayoutEdges(b)
    decreases |a|
  {
    if |a| == 0 {
      assert a + b == b;
    } else {
      assert (a + b)[1..] == a[1..] + b;
      LayoutEdgesAppend(a[1..], b);
    }
  }

  /** After a delete, no layout edge starts or ends at the deleted member, and
      every other parent edge is still drawn. */
  lemma LayoutAfterDelete(s: TreeState, id: Id)
    ensures var edges := LayoutEdges(HandleDelete(s, id).relationships);
            (forall e :: e in edges ==> e.source != id && e.target != id) &&
            (forall r :: r in s.relationships && r.kind == Parent && !Touches(r, id) ==>
               FlowEdgeOf(r) in edges)
  {
  }
}
