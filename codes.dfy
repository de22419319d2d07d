/** The license-code string built by `generate_license`: a fixed prefix, three
    random groups of five characters, and the plan type as suffix. The random
    choice of the groups is not modelled: they come in as parameters, and
    `IsGroup` says what `random.choices` can produce. */
module Codes {
  import opened Wrappers

  const Prefix: string := "Wind-Banner-"
  const GroupLength: nat := 5
  /** Length of `Prefix` plus the three groups and their three trailing hyphens. */
  const HeadLength: nat := |Prefix| + 3 * (GroupLength + 1)

  /** The alphabet `string.ascii_uppercase + string.digits`. */
  predicate IsCodeChar(c: char)
  {
    'A' <= c <= 'Z' || '0' <= c <= '9'
  }

  predicate IsGroup(g: string)
  {
    |g| == GroupLength && forall i :: 0 <= i < |g| ==> IsCodeChar(g[i])
  }

  datatype Parts = Parts(g1: string, g2: string, g3: string, kind: string)

  predicate ValidParts(p: Parts)
  {
    IsGroup(p.g1) && IsGroup(p.g2) && IsGroup(p.g3)
  }

  /** `generate_license(lic_type)` with the three random groups given. */
  function GenerateLicense(kind: string, g1: string, g2: string, g3: string): (code: string)
    requires IsGroup(g1) && IsGroup(g2) && IsGroup(g3)
    ensures |code| == HeadLength + |kind|
    ensures code[..|Prefix|] == Prefix
    ensures code[|Prefix|..|Prefix| + 5] == g1 && code[|Prefix| + 5] == '-'
    ensures code[|Prefix| + 6..|Prefix| + 11] == g2 && code[|Prefix| + 11] == '-'
    ensures code[|Prefix| + 12..|Prefix| + 17] == g3 && code[HeadLength - 1] == '-'
    ensures code[HeadLength..] == kind
    ensures forall i :: |Prefix| <= i < HeadLength ==> IsCodeChar(code[i]) || code[i] == '-'
  {
    Prefix + g1 + "-" + g2 + "-" + g3 + "-" + kind
  }

  /** The inverse of `GenerateLicense`: splits a code string back into its groups
      and its plan type, or gives None for a string not of that shape. */
  function ParseCode(code: string): (p: Option<Parts>)
    ensures p.Some? ==> ValidParts(p.value)
  {
    var n := |Prefix|;
    if |code| < HeadLength || code[..n] != Prefix then None
    else
      var g1 := code[n..n + 5];
      var g2 := code[n + 6..n + 11];
      var g3 := code[n + 12..n + 17];
      if IsGroup(g1) && IsGroup(g2) && IsGroup(g3)
         && code[n + 5] == '-' && code[n + 11] == '-' && code[n + 17] == '-'
      then Some(Parts(g1, g2, g3, code[HeadLength..]))
      else None
  }

  /** Every generated code parses back to the groups and the type it was built from. */
  lemma ParseGenerated(kind: string, g1: string, g2: string, g3: string)
    requires IsGroup(g1) && IsGroup(g2) && IsGroup(g3)
    ensures ParseCode(GenerateLicense(kind, g1, g2, g3)) == Some(Parts(g1, g2, g3, kind))
  {
    var code := GenerateLicense(kind, g1, g2, g3);
    var n := |Prefix|;
    assert code == Prefix + g1 + "-" + g2 + "-" + g3 + "-" + kind;
    assert code[n..n + 5] == g1;
    assert code[n + 6..n + 11] == g2;
    assert code[n + 12..n + 17] == g3;
  }

  /** Every string that parses is the code built from its parts: the code format
      is exactly the strings `ParseCode` accepts. */
  lemma GeneratedFromParse(code: string)
    requires ParseCode(code).Some?
    ensures var p := ParseCode(code).value;
            GenerateLicense(p.kind, p.g1, p.g2, p.g3) == code
  {
    var p := ParseCode(code).value;
    var n := |Prefix|;
    assert code == code[..n] + code[n..n + 5] + [code[n + 5]] + code[n + 6..n + 11] + [code[n + 11]]
                   + code[n + 12..n + 17] + [code[n + 17]] + code[HeadLength..];
  }

  /** Different groups or different types always give different code strings. */
  lemma GenerateInjective(k: string, g1: string, g2: string, g3: string,
                          k': string, h1: string, h2: string, h3: string)
    requires IsGroup(g1) && IsGroup(g2) && IsGroup(g3)
    requires IsGroup(h1) && IsGroup(h2) && IsGroup(h3)
    requires GenerateLicense(k, g1, g2, g3) == GenerateLicense(k', h1, h2, h3)
    ensures k == k' && g1 == h1 && g2 == h2 && g3 == h3
  {
    ParseGenerated(k, g1, g2, g3);
    ParseGenerated(k', h1, h2, h3);
  }
}
