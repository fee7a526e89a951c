/** `create_slug_from_id`: the join code of a game, its id in base 36, padded to six characters. */
module Slug {
  import opened Text

  /** The length every slug reaches at least. */
  const SlugLength := 6

  /** The characters of the `Alphanumeric` distribution. */
  predicate IsAlphanumeric(c: char) {
    ('0' <= c <= '9') || ('A' <= c <= 'Z') || ('a' <= c <= 'z')
  }

  predicate IsAlphanumericString(s: string) {
    forall i :: 0 <= i < |s| ==> IsAlphanumeric(s[i])
  }

  /** The slug of game `id`. `draws` stands for the characters the random generator would hand out;
      only as many of them as the padding needs are used. */
  function CreateSlugFromId(id: nat, draws: string): (slug: string)
    requires |draws| >= SlugLength && IsAlphanumericString(draws)
    ensures NatToRadix(id, 36) <= slug
    ensures |NatToRadix(id, 36)| < SlugLength ==> |slug| == SlugLength
    ensures |NatToRadix(id, 36)| >= SlugLength ==> slug == NatToRadix(id, 36)
    ensures |slug| >= SlugLength
    ensures IsAlphanumericString(slug)
  {
    var digits := NatToRadix(id, 36);
    if SlugLength - |digits| > 0 then digits + draws[..SlugLength - |digits|] else digits
  }

  /** The id can be read back from the slug once the length of its base-36 form is known. */
  lemma SlugEncodesId(id: nat, draws: string)
    requires |draws| >= SlugLength && IsAlphanumericString(draws)
    ensures var slug := CreateSlugFromId(id, draws);
      RadixToNat(slug[..|NatToRadix(id, 36)|], 36) == id
  {
    var slug := CreateSlugFromId(id, draws);
    assert slug[..|NatToRadix(id, 36)|] == NatToRadix(id, 36);
    RadixRoundTrip(id, 36);
  }

  /** Ids of six or more base-36 digits get distinct slugs, whatever the generator does. */
  lemma LongSlugsAreDistinct(m: nat, n: nat, draws1: string, draws2: string)
    requires |draws1| >= SlugLength && IsAlphanumericString(draws1)
    requires |draws2| >= SlugLength && IsAlphanumericString(draws2)
    requires |NatToRadix(m, 36)| >= SlugLength && |NatToRadix(n, 36)| >= SlugLength
    requires m != n
    ensures CreateSlugFromId(m, draws1) != CreateSlugFromId(n, draws2)
  {
    if CreateSlugFromId(m, draws1) == CreateSlugFromId(n, draws2) {
      RadixInjective(m, n, 36);
    }
  }

  /** Id 10 gets a six-character slug starting with 'A'. */
  lemma SlugOfTen(draws: string)
    requires |draws| >= SlugLength && IsAlphanumericString(draws)
    ensures var slug := CreateSlugFromId(10, draws);
      |slug| == 6 && slug[0] == 'A'
  {
    assert NatToRadix(10, 36) == "A";
  }

  /** Id 439483745 is "79NNTT" in base 36 and needs no padding. */
  lemma SlugOfLargeId(draws: string)
    requires |draws| >= SlugLength && IsAlphanumericString(draws)
    ensures CreateSlugFromId(439483745, draws) == "79NNTT"
  {
    assert NatToRadix(7, 36) == "7";
    assert NatToRadix(261, 36) == "79";
    assert NatToRadix(9419, 36) == "79N";
    assert NatToRadix(339107, 36) == "79NN";
    assert NatToRadix(12207881, 36) == "79NNT";
    assert NatToRadix(439483745, 36) == "79NNTT";
  }

  function Pow36(k: nat): nat {
    if k == 0 then 1 else 36 * Pow36(k - 1)
  }

  /** A number below 36^k has at most k base-36 digits. */
  lemma {:induction false} RadixLengthBound(n: nat, k: nat)
    requires 1 <= k && n < Pow36(k)
    ensures |NatToRadix(n, 36)| <= k
    decreases k
  {
    if n >= 36 {
      DivModBase(n, 36);
      if k == 1 {
        assert false;
      }
      assert n / 36 < Pow36(k - 1);
      RadixLengthBound(n / 36, k - 1);
    }
  }

  /** Every id a 32-bit serial column can hand out gets a slug of exactly six characters, the length
      the join request demands. */
  lemma SerialSlugsHaveSixCharacters(id: nat, draws: string)
    requires id <= 0x7fff_ffff
    requires |draws| >= SlugLength && IsAlphanumericString(draws)
    ensures |CreateSlugFromId(id, draws)| == SlugLength
  {
    assert Pow36(6) == 2176782336;
    RadixLengthBound(id, 6);
    if |NatToRadix(id, 36)| == 6 {
      assert CreateSlugFromId(id, draws) == NatToRadix(id, 36);
    }
  }
}
