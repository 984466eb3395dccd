/** The add/edit member form (apps/web/components/family-tree/add-member-form.tsx):
    how the form is reset when it opens, the gender it prefills from the
    relation word, the payload it submits, and which members it offers for
    linking. Field-by-field typing and the avatar upload are not modelled. */
module MemberForm {
  import opened Wrappers
  import opened Text
  import opened CoreTypes
  import Seqs

  /** Whether the form creates a new person or links an existing one. */
  datatype Mode = CreateMode | LinkMode

  /** The form's React state. */
  datatype FormState = FormState(
    mode: Mode, selectedExistingId: Id, relationshipStatus: string, formData: Patch)

  /** `{ gender: "male", isDeceased: false }`. */
  const DefaultData: Patch := EmptyPatch.(gender := Some(Some("male")), isDeceased := Some(Some(false)))

  /** The state on first render. */
  const InitialForm: FormState := FormState(CreateMode, "", "gift", DefaultData)

  const FemaleWords: set<string> := {"mother", "sister", "daughter", "wife"}
  const MaleWords: set<string> := {"father", "brother", "son", "husband"}

  /** The gender the form starts with for a new relative: "female" for the
      female relation words, otherwise the default "male" (the male words set
      it explicitly, to the same value). */
  function PrefillGender(relationType: Option<string>): (g: string)
    ensures g == "female" <==> Truthy(relationType) && relationType.value in FemaleWords
    ensures g != "female" ==> g == "male"
  {
    if Truthy(relationType) && relationType.value in FemaleWords then "female"
    else if Truthy(relationType) && relationType.value in MaleWords then "male"
    else "male"
  }

  /** The reset effect run when the form opens: an edited member is loaded as
      is; otherwise the defaults are restored with the prefilled gender and the
      linking choice is cleared. The mode is always back to creating. */
  function Reset(s: FormState, initialData: Option<Member>, relationType: Option<string>)
    : (r: FormState)
    ensures r.mode == CreateMode && r.relationshipStatus == s.relationshipStatus
    ensures initialData.Some? ==>
              r.formData == ToPatch(initialData.value) && r.selectedExistingId == s.selectedExistingId
    ensures initialData.None? ==>
              r.selectedExistingId == "" &&
              r.formData == DefaultData.(gender := Some(Some(PrefillGender(relationType))))
  {
    if initialData.Some? then
      s.(formData := ToPatch(initialData.value), mode := CreateMode)
    else
      var data := DefaultData;
      var data := if Truthy(relationType) && relationType.value in FemaleWords
                  then data.(gender := Some(Some("female")))
                  else if Truthy(relationType) && relationType.value in MaleWords
                  then data.(gender := Some(Some("male")))
                  else data;
      s.(formData := data, mode := CreateMode, selectedExistingId := "")
  }

  const PartnerFormWords: set<string> := {"partner", "husband", "wife"}

  /** `isPartner`: only partner relations carry a relationship status. */
  predicate IsPartner(relationType: Option<string>) {
    relationType.Some? && relationType.value in PartnerFormWords
  }

  /** What `handleSubmit` passes to `onSubmit`. */
  datatype Submission =
    | LinkExisting(existingMemberId: Id, relationshipStatus: Option<string>)
    | NewPerson(fields: Patch, relationshipStatus: Option<string>)

  /** `handleSubmit`: in linking mode with a chosen member, only that member's
      id; otherwise the form data. Either way the status is present exactly
      for partner relations. */
  function HandleSubmit(s: FormState, relationType: Option<string>): (r: Submission)
    ensures s.mode == LinkMode && s.selectedExistingId != "" ==>
              r.LinkExisting? && r.existingMemberId == s.selectedExistingId
    ensures !(s.mode == LinkMode && s.selectedExistingId != "") ==>
              r.NewPerson? && r.fields == s.formData
    ensures r.relationshipStatus.Some? <==> IsPartner(relationType)
    ensures r.relationshipStatus.Some? ==> r.relationshipStatus.value == s.relationshipStatus
  {
    var status := if IsPartner(relationType) then Some(s.relationshipStatus) else None;
    if s.mode == LinkMode && s.selectedExistingId != "" then LinkExisting(s.selectedExistingId, status)
    else NewPerson(s.formData, status)
  }

  /** `availableExistingMembers`: everyone but the member being edited, in
      the given order. */
  function AvailableExistingMembers(existing: seq<Member>, initialData: Option<Member>)
    : (r: seq<Member>)
    ensures forall m :: m in r <==> m in existing && (initialData.None? || m.id != initialData.value.id)
    ensures Seqs.IsSubsequence(r, existing)
    ensures initialData.None? ==> r == existing
    ensures forall m :: multiset(r)[m] ==
              if initialData.None? || m.id != initialData.value.id then multiset(existing)[m] else 0
  {
    var p := (m: Member) => initialData.None? || m.id != initialData.value.id;
    Seqs.FilterIsSubsequence(existing, p);
    Seqs.FilterMultiset(existing, p);
    if initialData.None? then Seqs.FilterKeepsAll(existing, p); Seqs.Filter(existing, p)
    else Seqs.Filter(existing, p)
  }

  /** `confirmDelete`: the id handed to `onDelete`, if the form edits a
      member with an id. */
  function DeleteTarget(initialData: Option<Member>): (r: Option<Id>)
    ensures r.Some? <==> initialData.Some? && initialData.value.id != ""
    ensures r.Some? ==> r.value == initialData.value.id
  {
    if initialData.Some? && initialData.value.id != "" then Some(initialData.value.id) else None
  }
}
