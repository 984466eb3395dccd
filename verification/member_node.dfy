/** The tree node card (apps/web/components/family-tree/node.tsx): the
    "birth - death" line under a member's name. */
module MemberNode {
  import opened Wrappers
  import opened Text
  import opened CoreTypes

  /** `date?.split("-")[0]`: the year part of an ISO date, when there is a date. */
  function YearOf(date: Option<string>): (y: Option<string>)
    ensures y.None? <==> date.None?
    ensures y.Some? ==> '-' !in y.value && y.value <= date.value
    ensures y.Some? && '-' in date.value ==> date.value[|y.value|] == '-'
    ensures y.Some? && '-' !in date.value ==> y.value == date.value
  {
    if date.None? then None
    else
      FirstPartSplitsAtFirstSeparator(date.value, '-');
      Some(FirstPart(date.value, '-'))
  }

  /** The birth year shown: the year part of `birthDate`, or "?" when there
      is no date or its year part is empty. */
  function BirthYear(m: Member): (y: string)
    ensures Truthy(YearOf(m.birthDate)) ==> y == YearOf(m.birthDate).value
    ensures !Truthy(YearOf(m.birthDate)) ==> y == "?"
    ensures y != "" && '-' !in y
  {
    OrDefault(YearOf(m.birthDate), "?")
  }

  /** `dateString`: "B - D" when a non-empty death year exists, otherwise
      "f. B" (born B). */
  function DateString(m: Member): (s: string)
    ensures Truthy(YearOf(m.deathDate)) ==> s == BirthYear(m) + " - " + YearOf(m.deathDate).value
    ensures !Truthy(YearOf(m.deathDate)) ==> s == "f. " + BirthYear(m)
  {
    var death := YearOf(m.deathDate);
    if Truthy(death) then BirthYear(m) + " - " + death.value else "f. " + BirthYear(m)
  }

  /** Dates written as "YYYY-MM-DD" show their years: the card recovers the
      year a date was built from. */
  lemma DatesShowTheirYears(m: Member, born: string, bornRest: string, died: string, diedRest: string)
    requires born != "" && '-' !in born
    requires m.birthDate == Some(born + "-" + bornRest)
    ensures m.deathDate.None? ==> DateString(m) == "f. " + born
    ensures died != "" && '-' !in died && m.deathDate == Some(died + "-" + diedRest) ==>
              DateString(m) == born + " - " + died
  {
    FirstPartOfGlued(born, bornRest, '-');
    if '-' !in died {
      FirstPartOfGlued(died, diedRest, '-');
    }
  }
}
