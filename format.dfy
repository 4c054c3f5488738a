/** The display helpers `capitalize` and `formatCharacter`. */
module Format {
  import opened Ascii

  /** `str.slice(0, 1).toUpperCase() + str.slice(1)`; `slice` clamps its
      bounds, so the empty string maps to itself. */
  function Capitalize(s: string): (r: string)
    ensures |r| == |s|
    ensures s == [] ==> r == []
    ensures s != [] ==> r[0] == UpperChar(s[0]) && r[1..] == s[1..]
  {
    var head := if |s| < 1 then |s| else 1;
    Upper(s[..head]) + s[head..]
  }

  /** Capitalizing twice is capitalizing once. */
  lemma CapitalizeIdempotent(s: string)
    ensures Capitalize(Capitalize(s)) == Capitalize(s)
  {
    if s != [] {
      var c := Capitalize(s);
      assert Capitalize(c)[1..] == c[1..];
      assert UpperChar(UpperChar(s[0])) == UpperChar(s[0]);
      assert Capitalize(c) == [Capitalize(c)[0]] + Capitalize(c)[1..];
      assert c == [c[0]] + c[1..];
    }
  }

  /** `${capitalize(character)} @ ${capitalize(realm)}-${region.toUpperCase()}` */
  function FormatCharacter(region: string, realm: string, character: string): (r: string)
    ensures |r| == |character| + |realm| + |region| + 4
  {
    Capitalize(character) + " @ " + Capitalize(realm) + "-" + Upper(region)
  }

  /** The formatted label splits into its parts: the character name and
      realm are only capitalized (everything after their first character is
      kept as given), the region is uppercased in full, and the separators
      " @ " and "-" stand between them. */
  lemma FormatCharacterParts(region: string, realm: string, character: string)
    ensures var r := FormatCharacter(region, realm, character);
            var a := |character|;
            var b := a + 3 + |realm|;
            && r[..a] == Capitalize(character)
            && r[a..a + 3] == " @ "
            && r[a + 3..b] == Capitalize(realm)
            && r[b] == '-'
            && r[b + 1..] == Upper(region)
            && (|character| > 0 ==> r[1..a] == character[1..])
            && (|realm| > 0 ==> r[a + 4..b] == realm[1..])
            && (forall i :: b + 1 <= i < |r| ==> !IsLower(r[i]))
  {
    var r := FormatCharacter(region, realm, character);
    var a := |character|;
    var b := a + 3 + |realm|;
    var c, m, u := Capitalize(character), Capitalize(realm), Upper(region);
    assert r == c + " @ " + m + "-" + u;
    assert r[..a] == c;
    assert r[a..a + 3] == " @ ";
    assert r[a + 3..b] == m;
    assert r[b + 1..] == u;
    if a > 0 {
      assert r[1..a] == c[1..];
    }
    if |realm| > 0 {
      assert r[a + 4..b] == m[1..];
    }
    UpperHasNoLower(region);
    forall i | b + 1 <= i < |r|
      ensures !IsLower(r[i])
    {
      assert r[i] == u[i - b - 1];
    }
  }
}
