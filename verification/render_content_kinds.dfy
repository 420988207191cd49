/** The `RenderContentKind` flags and their text form, as exchanged with the
    native engine: a `;`-separated list of kind names. */
module RenderContentKinds {

  /** `RenderContentKind` is a 32-bit `[Flags]` enum. */
  type Kinds = bv32

  const None: Kinds := 0
  const Material: Kinds := 1
  const Environment: Kinds := 2
  const Texture: Kinds := 4

  /** The three named flags together. */
  const AllKinds: Kinds := 7

  const MaterialName: string := "material"
  const EnvironmentName: string := "environment"
  const TextureName: string := "texture"

  /** `w` occurs in `s` as a contiguous substring (`String.Contains`). */
  predicate Contains(s: string, w: string)
  {
    exists i | 0 <= i <= |s| - |w| :: OccursAt(s, w, i)
  }

  /** `w` occurs in `s` starting at index `i`. */
  predicate OccursAt(s: string, w: string, i: int)
    requires 0 <= i <= |s| - |w|
  {
    s[i..i + |w|] == w
  }

  /** Reads kind flags back from text: each kind whose name occurs anywhere in
      the text is set, in any order and with any separators. */
  function KindFromString(kind: string): (k: Kinds)
    ensures k & AllKinds == k
    ensures (k & Material == Material) == Contains(kind, MaterialName)
    ensures (k & Environment == Environment) == Contains(kind, EnvironmentName)
    ensures (k & Texture == Texture) == Contains(kind, TextureName)
  {
    var k1 := if Contains(kind, MaterialName) then None | Material else None;
    var k2 := if Contains(kind, EnvironmentName) then k1 | Environment else k1;
    if Contains(kind, TextureName) then k2 | Texture else k2
  }

  /** Writes the set flags the way the string builder does: each name is
      appended in the order material, environment, texture, preceded by ";"
      only when something was already written. Bits other than the three
      named flags are ignored, so the text is empty exactly when none of the
      three is set, and it starts with "material" whenever that flag is. */
  function KindString(kinds: Kinds): (r: string)
    ensures r == "" <==> kinds & AllKinds == None
    ensures kinds & Material == Material ==> MaterialName <= r
  {
    var sb1 := if kinds & Material == Material then MaterialName else "";
    var sb2 := if kinds & Environment == Environment
               then (if |sb1| != 0 then sb1 + ";" else sb1) + EnvironmentName
               else sb1;
    if kinds & Texture == Texture
    then (if |sb2| != 0 then sb2 + ";" else sb2) + TextureName
    else sb2
  }

  /** The names of the set flags, in the fixed order material, environment, texture. */
  function KindNames(kinds: Kinds): (names: seq<string>)
    ensures |names| <= 3
    ensures (MaterialName in names) == (kinds & Material == Material)
    ensures (EnvironmentName in names) == (kinds & Environment == Environment)
    ensures (TextureName in names) == (kinds & Texture == Texture)
  {
    (if kinds & Material == Material then [MaterialName] else [])
    + (if kinds & Environment == Environment then [EnvironmentName] else [])
    + (if kinds & Texture == Texture then [TextureName] else [])
  }

  /** Names separated by ";", with no separator before the first or after the last. */
  function Join(names: seq<string>): string
  {
    if |names| == 0 then ""
    else if |names| == 1 then names[0]
    else names[0] + ";" + Join(names[1..])
  }

  /** `KindString` is the ";"-join of the set names in the fixed order. */
  lemma KindStringIsJoin(kinds: Kinds)
    ensures KindString(kinds) == Join(KindNames(kinds))
  {
    var m, e, t := kinds & Material == Material, kinds & Environment == Environment, kinds & Texture == Texture;
    if m && e && t {
      assert KindNames(kinds) == [MaterialName, EnvironmentName, TextureName];
      assert Join([EnvironmentName, TextureName]) == EnvironmentName + ";" + TextureName;
    } else if m && e {
      assert KindNames(kinds) == [MaterialName, EnvironmentName];
    } else if m && t {
      assert KindNames(kinds) == [MaterialName, TextureName];
    } else if e && t {
      assert KindNames(kinds) == [EnvironmentName, TextureName];
    } else if m {
      assert KindNames(kinds) == [MaterialName];
    } else if e {
      assert KindNames(kinds) == [EnvironmentName];
    } else if t {
      assert KindNames(kinds) == [TextureName];
    } else {
      assert KindNames(kinds) == [];
    }
  }

  /** A non-empty name that neither begins nor ends with the separator. */
  predicate IsName(w: string)
  {
    w != "" && w[0] != ';' && w[|w| - 1] != ';'
  }

  /** A joined list never starts or ends with the separator when no name is
      empty or starts or ends with it. */
  lemma {:induction false} JoinHasNoOuterSeparator(names: seq<string>)
    requires forall i | 0 <= i < |names| :: IsName(names[i])
    ensures Join(names) == "" <==> names == []
    ensures Join(names) != "" ==> Join(names)[0] != ';' && Join(names)[|Join(names)| - 1] != ';'
  {
    if |names| > 1 {
      JoinHasNoOuterSeparator(names[1..]);
      var rest := Join(names[1..]);
      assert Join(names) == names[0] + ";" + rest;
      assert Join(names)[0] == names[0][0];
      assert Join(names)[|Join(names)| - 1] == rest[|rest| - 1];
    }
  }

  /** The text form never begins or ends with ";". */
  lemma KindStringHasNoOuterSeparator(kinds: Kinds)
    ensures KindString(kinds) != "" ==>
      KindString(kinds)[0] != ';' && KindString(kinds)[|KindString(kinds)| - 1] != ';'
  {
    KindStringIsJoin(kinds);
    var names := KindNames(kinds);
    assert IsName(MaterialName) && IsName(EnvironmentName) && IsName(TextureName);
    assert forall i | 0 <= i < |names| :: names[i] in names;
    JoinHasNoOuterSeparator(names);
  }

  /** A word that has a character `s` lacks cannot occur in `s`. */
  lemma AbsentCharBlocks(s: string, w: string, j: nat)
    requires j < |w| && w[j] !in s
    ensures !Contains(s, w)
  {
    forall i | 0 <= i <= |s| - |w|
      ensures !OccursAt(s, w, i)
    {
      assert s[i..i + |w|][j] == s[i + j];
    }
  }

  /** A word that appears at some index of a text occurs in that text. */
  lemma ContainsAt(s: string, w: string, i: nat)
    requires i + |w| <= |s| && s[i..i + |w|] == w
    ensures Contains(s, w)
  {
    assert OccursAt(s, w, i);
  }

  /** "material" occurs in the text form exactly when the Material flag is set. */
  lemma MaterialNameOccurs(kinds: Kinds)
    ensures Contains(KindString(kinds), MaterialName) == (kinds & Material == Material)
  {
    var s := KindString(kinds);
    if kinds & Material == Material {
      assert s[..|MaterialName|] == MaterialName;
      ContainsAt(s, MaterialName, 0);
    } else {
      assert MaterialName[1] == 'a';
      assert 'a' !in EnvironmentName && 'a' !in TextureName;
      AbsentCharBlocks(s, MaterialName, 1);
    }
  }

  /** "environment" occurs in the text form exactly when the Environment flag is set. */
  lemma EnvironmentNameOccurs(kinds: Kinds)
    ensures Contains(KindString(kinds), EnvironmentName) == (kinds & Environment == Environment)
  {
    var s := KindString(kinds);
    var sb1 := if kinds & Material == Material then MaterialName else "";
    var sb2 := (if |sb1| != 0 then sb1 + ";" else sb1) + EnvironmentName;
    if kinds & Environment == Environment {
      assert s[..|sb2|] == sb2;
      assert sb2[|sb2| - |EnvironmentName|..] == EnvironmentName;
      ContainsAt(s, EnvironmentName, |sb2| - |EnvironmentName|);
    } else {
      assert EnvironmentName[2] == 'v';
      assert 'v' !in MaterialName && 'v' !in TextureName;
      AbsentCharBlocks(s, EnvironmentName, 2);
    }
  }

  /** "texture" occurs in the text form exactly when the Texture flag is set. */
  lemma TextureNameOccurs(kinds: Kinds)
    ensures Contains(KindString(kinds), TextureName) == (kinds & Texture == Texture)
  {
    var s := KindString(kinds);
    if kinds & Texture == Texture {
      ContainsAt(s, TextureName, |s| - |TextureName|);
    } else {
      assert TextureName[2] == 'x';
      assert 'x' !in MaterialName && 'x' !in EnvironmentName;
      AbsentCharBlocks(s, TextureName, 2);
    }
  }

  /** Flags within the three named bits are determined by those bits. */
  lemma NamedBitsDetermine(a: Kinds, b: Kinds)
    requires a & AllKinds == a
    requires (a & Material == Material) == (b & Material == Material)
    requires (a & Environment == Environment) == (b & Environment == Environment)
    requires (a & Texture == Texture) == (b & Texture == Texture)
    ensures a == b & AllKinds
  {
  }

  /** Parsing the text form gives back exactly the three named flags: for
      every combination of Material, Environment and Texture the round trip
      is the identity. */
  lemma KindRoundTrip(kinds: Kinds)
    ensures KindFromString(KindString(kinds)) == kinds & AllKinds
  {
    MaterialNameOccurs(kinds);
    EnvironmentNameOccurs(kinds);
    TextureNameOccurs(kinds);
    NamedBitsDetermine(KindFromString(KindString(kinds)), kinds);
  }
}
