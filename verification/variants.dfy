/** The six marker classes of the program, the three variant families they
    form, and the two strings each class contributes: its `type()` tag and the
    trace line its `process` handler writes. */
module Variants {

  /** One alternative of a family. The C++ classes carry no data, so an
      alternative is identified by which class it is. */
  datatype Alt = A1 | A2 | B1 | B2 | C1 | C2

  /** The fixed tag returned by the class's static `type()`; `TagSpelling`
      states its form. */
  function Tag(a: Alt): string
  {
    match a
    case A1 => "A1"
    case A2 => "A2"
    case B1 => "B1"
    case B2 => "B2"
    case C1 => "C1"
    case C2 => "C2"
  }

  /** The line the class's `process` handler writes before it calls its
      continuation: "Initialising " followed by some class's tag and "...".
      Which tag it names is stated by `AnnouncementNames`; the texts of B2 and
      C2 name each other's. */
  function Announcement(a: Alt): (line: string)
    ensures exists b :: line == Initialising + Tag(b) + "..."
  {
    match a
    case A1 => assert Tag(A1) == "A1"; "Initialising A1..."
    case A2 => assert Tag(A2) == "A2"; "Initialising A2..."
    case B1 => assert Tag(B1) == "B1"; "Initialising B1..."
    case B2 => assert Tag(C2) == "C2"; "Initialising C2..."
    case C1 => assert Tag(C1) == "C1"; "Initialising C1..."
    case C2 => assert Tag(B2) == "B2"; "Initialising B2..."
  }

  /** The text every announcement starts with. */
  const Initialising: string := "Initialising "

  /** The variant types `v_A`, `v_B` and `v_C`, alternatives in declaration order. */
  const FamilyA: seq<Alt> := [A1, A2]
  const FamilyB: seq<Alt> := [B1, B2]
  const FamilyC: seq<Alt> := [C1, C2]

  /** No two alternatives of the family share a tag. */
  predicate DistinctTags(fam: seq<Alt>)
  {
    forall j, k :: 0 <= j < k < |fam| ==> Tag(fam[j]) != Tag(fam[k])
  }

  /** How a tag is spelt: two characters, the letter of the class's family
      and then its 1-based position in that family's declaration order. */
  lemma TagSpelling(a: Alt)
    ensures |Tag(a)| == 2
    ensures Tag(a)[0] == 'A' <==> a in FamilyA
    ensures Tag(a)[0] == 'B' <==> a in FamilyB
    ensures Tag(a)[0] == 'C' <==> a in FamilyC
    ensures Tag(a)[1] == '1' <==> a == FamilyA[0] || a == FamilyB[0] || a == FamilyC[0]
    ensures Tag(a)[1] == '2' <==> a == FamilyA[1] || a == FamilyB[1] || a == FamilyC[1]
  {
  }

  /** A tag names exactly one class. */
  lemma TagIdentifies(a: Alt, b: Alt)
    ensures Tag(a) == Tag(b) <==> a == b
  {
  }

  /** Within each of the three families the two tags differ. */
  lemma FamiliesHaveDistinctTags()
    ensures DistinctTags(FamilyA) && DistinctTags(FamilyB) && DistinctTags(FamilyC)
  {
  }

  /** Every handler announces itself as "Initialising <tag>...", except B2 and
      C2, which announce each other. */
  lemma AnnouncementNames(a: Alt)
    ensures a != B2 && a != C2 <==> Announcement(a) == Initialising + Tag(a) + "..."
    ensures a == B2 ==> Announcement(a) == Initialising + Tag(C2) + "..."
    ensures a == C2 ==> Announcement(a) == Initialising + Tag(B2) + "..."
  {
    match a
    case A1 =>
    case A2 =>
    case B1 =>
    case C1 =>
    // The first character after the prefix is the letter of the named tag.
    case B2 => assert Announcement(a)[|Initialising|] != (Initialising + Tag(a) + "...")[|Initialising|];
    case C2 => assert Announcement(a)[|Initialising|] != (Initialising + Tag(a) + "...")[|Initialising|];
  }
}
