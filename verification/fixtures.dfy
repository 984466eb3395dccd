/** The repository's mock family, relationships and conversations
    (packages/core/src/mock-data.ts) and what the model says about them. */
module Fixtures {
  import opened Wrappers
  import opened CoreTypes
  import opened TreeView
  import opened ChatContext
  import opened Seqs
  import MemberNode
  import PersonDetails

  function Person(id: Id, first: string, last: string, born: string, gender: string, bio: string, role: string): Member {
    NamedMember(id, first, last).(birthDate := Some(born), gender := Some(gender), bio := Some(bio), role := Some(role))
  }

  const Olav := Person("1", "Olav", "Nordmann", "1950-05-12", "male", "Bestefar og fiskeentusiast.", "admin")
  const Kari := Person("2", "Kari", "Nordmann", "1952-08-20", "female", "Bestemor og familiens samlingspunkt.", "admin")
  const Per := Person("3", "Per", "Nordmann", "1975-03-15", "male", "Far, elsker fotball.", "contributor")
  const Anne := Person("4", "Anne", "Hansen", "1978-11-10", "female", "Mor, jobber som lærer.", "contributor")
  const Lise := Person("5", "Lise", "Nordmann", "2005-06-01", "female", "Datter, student.", "contributor")
  const Ole := Person("6", "Ole", "Nordmann", "2008-09-22", "male", "Sønn, gamer.", "contributor")

  const MockMembers: seq<Member> := [Olav, Kari, Per, Anne, Lise, Ole]

  const R1 := Relationship("r1", "1", "2", Spouse)
  const R2 := Relationship("r2", "1", "3", Parent)
  const R3 := Relationship("r3", "2", "3", Parent)
  const R4 := Relationship("r4", "3", "4", Spouse)
  const R5 := Relationship("r5", "3", "5", Parent)
  const R6 := Relationship("r6", "4", "5", Parent)
  const R7 := Relationship("r7", "3", "6", Parent)
  const R8 := Relationship("r8", "4", "6", Parent)

  const MockRelationships: seq<Relationship> := [R1, R2, R3, R4, R5, R6, R7, R8]

  const MockTree := TreeState(MockMembers, MockRelationships, None, None, false)

  const C1 := Conversation("c1", None, None, None, ["1", "3"], [
    Message("m1", None, "1", "Hei Per! Hvordan går det med fotballen?", "2023-10-27T10:00:00Z", true),
    Message("m2", None, "3", "Hei pappa! Det går bra, vi vant forrige kamp!", "2023-10-27T10:05:00Z", true),
    Message("m3", None, "1", "Så bra! Gratulerer!", "2023-10-27T10:30:00Z", true)], "2023-10-27T10:30:00Z")
  const C2 := Conversation("c2", None, None, None, ["2", "4"], [
    Message("m4", None, "4", "Hei Kari, har du oppskriften på eplekaken din?", "2023-10-26T13:00:00Z", true),
    Message("m5", None, "2", "Selvfølgelig! Jeg skal finne den frem til deg.", "2023-10-26T14:00:00Z", true)], "2023-10-26T14:00:00Z")

  const MockConversations: seq<Conversation> := [C1, C2]

  /** The current user of the chat: Per. */
  const Me: Id := "3"

  /** Every mock relationship joins two mock members. */
  lemma MockTreeIsClosed()
    ensures ReferentiallyClosed(MockMembers, MockRelationships)
  {
    forall r | r in MockRelationships
      ensures (exists m :: m in MockMembers && m.id == r.fromId) &&
              (exists m :: m in MockMembers && m.id == r.toId)
    {
      HasMember(r.fromId);
      HasMember(r.toId);
    }
  }

  /** Each of the ids "1" to "6" belongs to a mock member. */
  lemma HasMember(id: Id)
    requires id in {"1", "2", "3", "4", "5", "6"}
    ensures exists m :: m in MockMembers && m.id == id
  {
    var i := if id == "1" then 0 else if id == "2" then 1 else if id == "3" then 2
             else if id == "4" then 3 else if id == "5" then 4 else 5;
    assert MockMembers[i].id == id;
  }

  /** Deleting Per takes his four relationships with him and leaves exactly
      r1, r6 and r8, in order. */
  lemma DeletingPer()
    ensures HandleDelete(MockTree, "3").relationships == [R1, R6, R8]
  {
    KeptRelationships();
  }

  /** The relationships that do not touch Per. */
  lemma KeptRelationships()
    ensures Filter(MockRelationships, KeepsRelationship("3")) == [R1, R6, R8]
  {
    var k := KeepsRelationship("3");
    KeptTail(k);
    assert [R1] + [R2, R3, R4, R5, R6, R7, R8] == MockRelationships;
    FilterCons(R1, [R2, R3, R4, R5, R6, R7, R8], k);
  }

  lemma KeptTail(k: Relationship -> bool)
    requires k == KeepsRelationship("3")
    ensures Filter([R2, R3, R4, R5, R6, R7, R8], k) == [R6, R8]
  {
    KeptR6(k);
    assert [R2] + ([R3] + ([R4] + ([R5] + [R6, R7, R8]))) == [R2, R3, R4, R5, R6, R7, R8];
    FilterCons(R5, [R6, R7, R8], k);
    FilterCons(R4, [R5] + [R6, R7, R8], k);
    FilterCons(R3, [R4] + ([R5] + [R6, R7, R8]), k);
    FilterCons(R2, [R3] + ([R4] + ([R5] + [R6, R7, R8])), k);
  }

  lemma KeptR6(k: Relationship -> bool)
    requires k == KeepsRelationship("3")
    ensures Filter([R6, R7, R8], k) == [R6, R8]
  {
    assert [R6] + ([R7] + [R8]) == [R6, R7, R8];
    FilterCons(R8, [], k);
    assert [R8] + [] == [R8];
    FilterCons(R7, [R8], k);
    FilterCons(R6, [R7] + [R8], k);
  }

  /** Deleting Per keeps the other five members, in order. */
  lemma DeletingPerKeepsOthers()
    ensures HandleDelete(MockTree, "3").members == [Olav, Kari, Anne, Lise, Ole]
  {
    KeptMembers();
  }

  /** The members other than Per. */
  lemma KeptMembers()
    ensures Filter(MockMembers, KeepsMember("3")) == [Olav, Kari, Anne, Lise, Ole]
  {
    var k := KeepsMember("3");
    var before, after := [Olav, Kari], [Anne, Lise, Ole];
    assert before + [Per] + after == MockMembers;
    assert before + after == [Olav, Kari, Anne, Lise, Ole];
    FilterKeepsAll(before, k);
    FilterKeepsAll(after, k);
    FilterCons(Per, [], k);
    FilterAppend(before, [Per], k);
    FilterAppend(before + [Per], after, k);
  }

  /** The layout draws the six parent edges. */
  lemma MockLayout()
    ensures LayoutEdges(MockRelationships) ==
            [FlowEdgeOf(R2), FlowEdgeOf(R3), FlowEdgeOf(R5), FlowEdgeOf(R6), FlowEdgeOf(R7), FlowEdgeOf(R8)]
  {
    var rs := MockRelationships;
    assert LayoutEdges(rs[7..]) == [FlowEdgeOf(R8)];
    assert LayoutEdges(rs[6..]) == [FlowEdgeOf(R7), FlowEdgeOf(R8)];
    assert LayoutEdges(rs[5..]) == [FlowEdgeOf(R6), FlowEdgeOf(R7), FlowEdgeOf(R8)];
    assert LayoutEdges(rs[4..]) == [FlowEdgeOf(R5), FlowEdgeOf(R6), FlowEdgeOf(R7), FlowEdgeOf(R8)];
    assert LayoutEdges(rs[3..]) == LayoutEdges(rs[4..]);
    assert LayoutEdges(rs[2..]) == [FlowEdgeOf(R3)] + LayoutEdges(rs[3..]);
    assert LayoutEdges(rs[1..]) == [FlowEdgeOf(R2)] + LayoutEdges(rs[2..]);
  }

  /** Per starting a chat with Olav reopens their conversation c1 rather than
      creating one. */
  lemma PerChatsWithOlav(newId: Id, now: string)
    ensures var t := StartChat(ChatState(MockConversations, [], []), Me, "1", newId, now);
            t.conversations == MockConversations && t.openChats == ["c1"] && t.minimizedChats == []
  {
    assert Between(C1, Me, "1");
  }

  /** In c1, Per is talking to Olav. */
  lemma ParticipantOfC1()
    ensures GetParticipant(MockConversations, MockMembers, Me, "c1") == Some(Olav)
  {
  }

  /** Olav's card: born 1950, no death date. */
  lemma OlavCard()
    ensures MemberNode.DateString(Olav) == "f. 1950"
  {
    assert "1950" + "-" + "05-12" == "1950-05-12";
    MemberNode.DatesShowTheirYears(Olav, "1950", "05-12", "", "");
  }

  /** Olav's details: his two names, and his age from the birth year. */
  lemma OlavDetails(currentYear: int)
    ensures PersonDetails.FullName(Olav) == "Olav Nordmann"
    ensures PersonDetails.AgeOf(Olav, currentYear, 1950) == PersonDetails.Years(currentYear - 1950)
  {
    assert Olav.title.None? && Olav.middleName.None?;
  }
}
