/** The member search of the chat sidebar
    (apps/web/components/chat/family-list.tsx). Case folding covers the
    letters of Latin-1, which include the Norwegian Æ, Ø and Å. */
module FamilyList {
  import opened Text
  import opened CoreTypes
  import opened Seqs

  /** The search test for one member. */
  predicate MatchesQuery(m: Member, query: string) {
    Includes(Lower(m.firstName), Lower(query)) || Includes(Lower(m.lastName), Lower(query))
  }

  /** `filteredMembers`: everyone but the current user whose first or last
      name contains the query, ignoring case, in directory order. */
  function FilteredMembers(members: seq<Member>, currentUserId: Id, query: string): (r: seq<Member>)
    ensures forall m :: m in r <==> m in members && m.id != currentUserId && MatchesQuery(m, query)
    ensures IsSubsequence(r, members)
    ensures forall m :: multiset(r)[m] ==
              if m.id != currentUserId && MatchesQuery(m, query) then multiset(members)[m] else 0
  {
    var p := (m: Member) => m.id != currentUserId && MatchesQuery(m, query);
    FilterIsSubsequence(members, p);
    FilterMultiset(members, p);
    Filter(members, p)
  }

  /** An empty query matches every name, so only the current user is left
      out; without the current user in the directory, nothing is. */
  lemma EmptyQueryKeepsEveryoneElse(members: seq<Member>, currentUserId: Id)
    ensures forall m :: m in FilteredMembers(members, currentUserId, "") <==>
              m in members && m.id != currentUserId
    ensures (forall i :: 0 <= i < |members| ==> members[i].id != currentUserId) ==>
              FilteredMembers(members, currentUserId, "") == members
  {
    assert Lower("") == "";
    forall m: Member ensures MatchesQuery(m, "") {
      IncludesEmpty(Lower(m.firstName));
    }
    if forall i :: 0 <= i < |members| ==> members[i].id != currentUserId {
      FilterKeepsAll(members, (m: Member) => m.id != currentUserId && MatchesQuery(m, ""));
    }
  }

  /** Lower-casing is idempotent. */
  lemma LowerIdempotent(s: string)
    ensures Lower(Lower(s)) == Lower(s)
  {
  }

  /** The search ignores the case of the query: typing it in upper or lower
      case gives the same list. */
  lemma SearchIgnoresQueryCase(members: seq<Member>, currentUserId: Id, query: string)
    ensures FilteredMembers(members, currentUserId, Lower(query)) == FilteredMembers(members, currentUserId, query)
  {
    LowerIdempotent(query);
    FilterCongruence(members,
      (m: Member) => m.id != currentUserId && MatchesQuery(m, Lower(query)),
      (m: Member) => m.id != currentUserId && MatchesQuery(m, query));
  }

  /** The search for "øy" finds Øystein. */
  lemma NorwegianCaseIgnored(currentUserId: Id)
    requires currentUserId != "7"
    ensures NamedMember("7", "Øystein", "Berg") in
            FilteredMembers([NamedMember("7", "Øystein", "Berg")], currentUserId, "øy")
  {
    assert Lower("Øystein")[..2] == Lower("øy");
  }
}
