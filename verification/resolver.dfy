/** The first-match search of `get<V, I>`: the alternatives of a family are
    compared with the requested tag in declaration order, starting at index
    `I`, and running past the last one is the `invalid_argument` error. */
module Resolver {
  import opened Variants

  /** The result of a search: the matching alternative, or the message of the
      exception `get` throws. */
  datatype Result<T> = Ok(value: T) | Err(message: string)

  /** The message of the `std::invalid_argument` thrown when no alternative matches. */
  const InvalidType: string := "Error [get]: Invalid type"

  /** Some alternative at index `i` or later carries `tag`. */
  predicate Offers(fam: seq<Alt>, tag: string, i: nat)
  {
    exists k :: i <= k < |fam| && Tag(fam[k]) == tag
  }

  /** `j` is the first index at or after `i` whose alternative carries `tag`. */
  predicate FirstMatchAt(fam: seq<Alt>, tag: string, i: nat, j: nat)
  {
    && i <= j < |fam|
    && Tag(fam[j]) == tag
    && forall k :: i <= k < j ==> Tag(fam[k]) != tag
  }

  /** `get<V, I>(type, ...)` with the family `V` given as `fam` and the template
      index `I` as `i`: which alternative it dispatches to, or why it throws.
      What is found is a member of the family carrying the tag;
      `ResolveFirstMatch` states which member and when. */
  function Resolve(fam: seq<Alt>, tag: string, i: nat): (r: Result<Alt>)
    ensures r.Ok? ==> i < |fam| && r.value in fam[i..] && Tag(r.value) == tag
    ensures r.Err? ==> r.message == InvalidType
    decreases |fam| - i
  {
    if i < |fam| then
      if Tag(fam[i]) == tag then Ok(fam[i]) else Resolve(fam, tag, i + 1)
    else
      Err(InvalidType)
  }

  /** The search from index `i` succeeds exactly when some alternative at `i`
      or later carries the tag, and then it yields the first such alternative
      in declaration order. */
  lemma {:induction false} ResolveFirstMatch(fam: seq<Alt>, tag: string, i: nat)
    ensures Resolve(fam, tag, i).Ok? <==> Offers(fam, tag, i)
    ensures Resolve(fam, tag, i).Ok? ==>
      exists j: nat :: FirstMatchAt(fam, tag, i, j) && fam[j] == Resolve(fam, tag, i).value
    decreases |fam| - i
  {
    if i < |fam| {
      if Tag(fam[i]) == tag {
        assert FirstMatchAt(fam, tag, i, i);
      } else {
        ResolveFirstMatch(fam, tag, i + 1);
        if Offers(fam, tag, i) {
          var k :| i <= k < |fam| && Tag(fam[k]) == tag;
          assert k != i;
        }
        if Resolve(fam, tag, i).Ok? {
          var j: nat :| FirstMatchAt(fam, tag, i + 1, j) && fam[j] == Resolve(fam, tag, i).value;
          assert FirstMatchAt(fam, tag, i, j);
        }
      }
    }
  }

  /** Asking any family for the tag of one of its members yields that
      member: a tag names exactly one class. */
  lemma ResolveOwnTag(fam: seq<Alt>, a: Alt)
    requires a in fam
    ensures Resolve(fam, Tag(a), 0) == Ok(a)
  {
    var k :| 0 <= k < |fam| && fam[k] == a;
    assert Offers(fam, Tag(a), 0);
    ResolveFirstMatch(fam, Tag(a), 0);
    var r := Resolve(fam, Tag(a), 0);
    TagIdentifies(r.value, a);
  }

  /** A successful search is determined by the tag alone: two searches of a
      family that succeed with the same alternative asked for the same tag,
      and the found alternative's tag is the one asked for. */
  lemma ResolveUnique(fam: seq<Alt>, t: string, u: string)
    requires Resolve(fam, t, 0).Ok? && Resolve(fam, u, 0).Ok?
    ensures Resolve(fam, t, 0) == Resolve(fam, u, 0) <==> t == u
    ensures Tag(Resolve(fam, t, 0).value) == t
  {
  }

  /** The three families of the program: each member is found by its own tag,
      and a tag of another family, or no family, is an error. */
  lemma ResolveFamilies(a: Alt, tag: string)
    ensures a in FamilyA ==> Resolve(FamilyA, Tag(a), 0) == Ok(a)
    ensures a in FamilyB ==> Resolve(FamilyB, Tag(a), 0) == Ok(a)
    ensures a in FamilyC ==> Resolve(FamilyC, Tag(a), 0) == Ok(a)
    ensures Resolve(FamilyA, tag, 0).Ok? <==> tag == "A1" || tag == "A2"
    ensures Resolve(FamilyB, tag, 0).Ok? <==> tag == "B1" || tag == "B2"
    ensures Resolve(FamilyC, tag, 0).Ok? <==> tag == "C1" || tag == "C2"
  {
    FamiliesHaveDistinctTags();
    if a in FamilyA { ResolveOwnTag(FamilyA, a); }
    if a in FamilyB { ResolveOwnTag(FamilyB, a); }
    if a in FamilyC { ResolveOwnTag(FamilyC, a); }
    OffersPair(FamilyA, tag);
    OffersPair(FamilyB, tag);
    OffersPair(FamilyC, tag);
  }

  /** A two-member family offers exactly the tags of its two members. */
  lemma OffersPair(fam: seq<Alt>, tag: string)
    requires |fam| == 2
    ensures Offers(fam, tag, 0) <==> Tag(fam[0]) == tag || Tag(fam[1]) == tag
  {
    ResolveFirstMatch(fam, tag, 0);
    if Tag(fam[0]) == tag {
      assert 0 <= 0 < |fam| && Tag(fam[0]) == tag;
    } else if Tag(fam[1]) == tag {
      assert 0 <= 1 < |fam| && Tag(fam[1]) == tag;
    }
  }
}
