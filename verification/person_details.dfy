/** The person details modal
    (apps/web/components/family-tree/person-details-modal.tsx): when it
    renders, the full name it shows and the age. The current year and the
    year `new Date(birthDate)` parses are parameters. */
module PersonDetails {
  import opened Wrappers
  import opened Text
  import opened CoreTypes

  /** `age`: a number of years, or "Ukjent" (unknown). */
  datatype Age = Years(years: int) | Unknown

  /** What the modal shows of a member. */
  datatype Details = Details(member: Member, fullName: string, age: Age)

  /** The words of the full name in order: a truthy title, the first name,
      a truthy middle name, the last name. */
  function NameParts(m: Member): seq<string> {
    (if Truthy(m.title) then [m.title.value] else []) + [m.firstName] +
    (if Truthy(m.middleName) then [m.middleName.value] else []) + [m.lastName]
  }

  /** `fullName`: the name's words separated by single spaces; a missing or
      empty title or middle name takes its space with it. */
  function FullName(m: Member): (r: string)
    ensures r == Join(NameParts(m), ' ')
    ensures !Truthy(m.title) && !Truthy(m.middleName) ==> r == m.firstName + " " + m.lastName
  {
    var t := if Truthy(m.title) then m.title.value + " " else "";
    var mid := if Truthy(m.middleName) then m.middleName.value + " " else "";
    JoinNameParts(m);
    t + m.firstName + " " + mid + m.lastName
  }

  lemma JoinNameParts(m: Member)
    ensures Join(NameParts(m), ' ') ==
            (if Truthy(m.title) then m.title.value + " " else "") + m.firstName + " " +
            (if Truthy(m.middleName) then m.middleName.value + " " else "") + m.lastName
  {
    var f, l := m.firstName, m.lastName;
    var rest := (if Truthy(m.middleName) then [m.middleName.value] else []) + [l];
    assert Join([l], ' ') == l;
    if Truthy(m.middleName) {
      assert Join(rest, ' ') == m.middleName.value + " " + l;
    }
    assert NameParts(m) == (if Truthy(m.title) then [m.title.value] else []) + ([f] + rest);
    assert Join([f] + rest, ' ') == f + " " + Join(rest, ' ');
    if Truthy(m.title) {
      assert Join(NameParts(m), ' ') == m.title.value + " " + Join([f] + rest, ' ');
    }
  }

  /** Splitting the shown name at its spaces gives back the member's name
      words, when none of them is empty or holds a space. */
  lemma FullNameSplitsIntoParts(m: Member)
    requires m.firstName != "" && m.lastName != ""
    requires forall w :: w in NameParts(m) ==> ' ' !in w
    ensures Split(FullName(m), ' ') == NameParts(m)
  {
    var parts := NameParts(m);
    assert forall i :: 0 <= i < |parts| ==> ' ' !in parts[i] by {
      forall i | 0 <= i < |parts| ensures ' ' !in parts[i] {
        assert parts[i] in parts;
      }
    }
    SplitJoin(parts, ' ');
  }

  /** `age`: the current year minus the birth year when `birthDate` is
      truthy, otherwise unknown. */
  function AgeOf(m: Member, currentYear: int, birthYear: int): (a: Age)
    ensures a.Years? <==> Truthy(m.birthDate)
    ensures a.Years? ==> a.years + birthYear == currentYear
  {
    if Truthy(m.birthDate) then Years(currentYear - birthYear) else Unknown
  }

  /** The modal renders only when open and given a member. */
  function Render(isOpen: bool, member: Option<Member>, currentYear: int, birthYear: int): (d: Option<Details>)
    ensures d.Some? <==> isOpen && member.Some?
    ensures d.Some? ==> d.value.member == member.value &&
                        d.value.fullName == FullName(member.value) &&
                        d.value.age == AgeOf(member.value, currentYear, birthYear)
  {
    if !isOpen || member.None? then None
    else Some(Details(member.value, FullName(member.value), AgeOf(member.value, currentYear, birthYear)))
  }

  /** A year later the shown age is one more; without a birth date it stays
      unknown. */
  lemma AgeAdvancesWithTheYear(m: Member, currentYear: int, birthYear: int)
    ensures AgeOf(m, currentYear + 1, birthYear) ==
            match AgeOf(m, currentYear, birthYear)
            case Years(n) => Years(n + 1)
            case Unknown => Unknown
  {
  }
}
