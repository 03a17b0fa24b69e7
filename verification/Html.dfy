/** `escapeHtml`: five replacement passes over the whole text. */
module Html {
  import opened Prelude

  /** `replaceAll` for a one-character pattern. */
  function ReplaceAll(s: string, c: char, replacement: string): (r: string)
  {
    if s == [] then [] else (if s[0] == c then replacement else [s[0]]) + ReplaceAll(s[1..], c, replacement)
  }

  lemma {:induction false} ReplaceAppend(s: string, t: string, c: char, replacement: string)
    ensures ReplaceAll(s + t, c, replacement) == ReplaceAll(s, c, replacement) + ReplaceAll(t, c, replacement)
  {
    if s == [] {
      assert s + t == t;
    } else {
      ReplaceAppend(s[1..], t, c, replacement);
      assert (s + t)[0] == s[0] && (s + t)[1..] == s[1..] + t;
      AppendAssociative(if s[0] == c then replacement else [s[0]], ReplaceAll(s[1..], c, replacement), ReplaceAll(t, c, replacement));
    }
  }

  function Pass2(s: string): string { ReplaceAll(s, '<', "&lt;") }
  function Pass3(s: string): string { ReplaceAll(s, '>', "&gt;") }
  function Pass4(s: string): string { ReplaceAll(s, '"', "&quot;") }
  function Pass5(s: string): string { ReplaceAll(s, '\'', "&#039;") }

  /** The source's five passes; the ampersand has to go first. */
  function EscapeHtml(s: string): (r: string)
  {
    Pass5(Pass4(Pass3(Pass2(ReplaceAll(s, '&', "&amp;")))))
  }

  /** The substitution of a single character. */
  function EscapeChar(c: char): (r: string)
  {
    if c == '&' then "&amp;" else if c == '<' then "&lt;" else if c == '>' then "&gt;"
    else if c == '"' then "&quot;" else if c == '\'' then "&#039;" else [c]
  }

  function EscapeEach(s: string): (r: string)
  {
    if s == [] then [] else EscapeChar(s[0]) + EscapeEach(s[1..])
  }

  lemma {:induction false} NothingToReplace(s: string, c: char, replacement: string)
    requires c !in s
    ensures ReplaceAll(s, c, replacement) == s
  {
    if s != [] {
      NothingToReplace(s[1..], c, replacement);
      assert s == [s[0]] + s[1..];
    }
  }

  lemma OneChar(c: char, d: char, replacement: string)
    ensures ReplaceAll([c], d, replacement) == if c == d then replacement else [c]
  {
    assert [c][1..] == [];
  }

  lemma PassesAppend(s: string, t: string)
    ensures Pass5(Pass4(Pass3(Pass2(s + t)))) == Pass5(Pass4(Pass3(Pass2(s)))) + Pass5(Pass4(Pass3(Pass2(t))))
  {
    hide ReplaceAll;
    ReplaceAppend(s, t, '<', "&lt;");
    ReplaceAppend(Pass2(s), Pass2(t), '>', "&gt;");
    ReplaceAppend(Pass3(Pass2(s)), Pass3(Pass2(t)), '"', "&quot;");
    ReplaceAppend(Pass4(Pass3(Pass2(s))), Pass4(Pass3(Pass2(t))), '\'', "&#039;");
  }

  /** Later passes leave the entities of earlier passes alone. */
  lemma PassesOnChar(c: char)
    ensures Pass5(Pass4(Pass3(Pass2(if c == '&' then "&amp;" else [c])))) == EscapeChar(c)
  {
    hide ReplaceAll;
    if c == '&' {
      NothingToReplace("&amp;", '<', "&lt;");
      NothingToReplace("&amp;", '>', "&gt;");
      NothingToReplace("&amp;", '"', "&quot;");
      NothingToReplace("&amp;", '\'', "&#039;");
    } else {
      OneChar(c, '<', "&lt;");
      NothingToReplace("&lt;", '>', "&gt;");
      NothingToReplace("&lt;", '"', "&quot;");
      NothingToReplace("&lt;", '\'', "&#039;");
      OneChar(c, '>', "&gt;");
      NothingToReplace("&gt;", '"', "&quot;");
      NothingToReplace("&gt;", '\'', "&#039;");
      OneChar(c, '"', "&quot;");
      NothingToReplace("&quot;", '\'', "&#039;");
      OneChar(c, '\'', "&#039;");
    }
  }

  /** The five sequential passes equal one substitution per character. */
  lemma {:induction false} PassesAreOneSubstitution(s: string)
    ensures EscapeHtml(s) == EscapeEach(s)
  {
    hide Pass2, Pass3, Pass4, Pass5, EscapeChar;
    if s == [] {
      EmptyPasses();
    } else {
      var head := if s[0] == '&' then "&amp;" else [s[0]];
      PassesAppend(head, ReplaceAll(s[1..], '&', "&amp;"));
      PassesOnChar(s[0]);
      PassesAreOneSubstitution(s[1..]);
    }
  }

  lemma EmptyPasses()
    ensures EscapeHtml([]) == []
  {
  }

  // ---------------------------------------------------------------- decoding

  predicate StartsWith(s: string, prefix: string)
  {
    |prefix| <= |s| && s[..|prefix|] == prefix
  }

  /** A decoder for the five entities. */
  function Decode(s: string): (r: string)
  {
    if s == [] then []
    else if s[0] != '&' then [s[0]] + Decode(s[1..])
    else if StartsWith(s, "&amp;") then "&" + Decode(s[5..])
    else if StartsWith(s, "&lt;") then "<" + Decode(s[4..])
    else if StartsWith(s, "&gt;") then ">" + Decode(s[4..])
    else if StartsWith(s, "&quot;") then "\"" + Decode(s[6..])
    else if StartsWith(s, "&#039;") then "'" + Decode(s[6..])
    else [s[0]] + Decode(s[1..])
  }

  lemma SecondDiffers(s: string, t: string)
    requires |s| >= 2 && |t| >= 2 && s[1] != t[1]
    ensures !StartsWith(s, t)
  {
    assert |t| <= |s| ==> s[..|t|][1] == s[1];
  }

  lemma Splits(e: string, rest: string)
    ensures StartsWith(e + rest, e) && (e + rest)[|e|..] == rest
  {
  }

  lemma OtherEntities(s: string)
    requires |s| >= 2
    ensures s[1] != 'a' ==> !StartsWith(s, "&amp;")
    ensures s[1] != 'l' ==> !StartsWith(s, "&lt;")
    ensures s[1] != 'g' ==> !StartsWith(s, "&gt;")
    ensures s[1] != 'q' ==> !StartsWith(s, "&quot;")
  {
    hide StartsWith;
    if s[1] != 'a' { SecondDiffers(s, "&amp;"); }
    if s[1] != 'l' { SecondDiffers(s, "&lt;"); }
    if s[1] != 'g' { SecondDiffers(s, "&gt;"); }
    if s[1] != 'q' { SecondDiffers(s, "&quot;"); }
  }

  lemma DecodeChar(c: char, rest: string)
    ensures Decode(EscapeChar(c) + rest) == [c] + Decode(rest)
  {
    var e := EscapeChar(c);
    Splits(e, rest);
    if |e| > 1 {
      var all := e + rest;
      assert all[0] == '&' && all[1] == e[1];
      OtherEntities(all);
      hide StartsWith;
    }
  }

  /** Escaping loses nothing: the decoder gives back every text. */
  lemma {:induction false} DecodeInverts(s: string)
    ensures Decode(EscapeHtml(s)) == s
  {
    PassesAreOneSubstitution(s);
    DecodeEach(s);
  }

  lemma {:induction false} DecodeEach(s: string)
    ensures Decode(EscapeEach(s)) == s
  {
    if s != [] {
      hide EscapeChar, Decode;
      DecodeChar(s[0], EscapeEach(s[1..]));
      DecodeEach(s[1..]);
      assert s == [s[0]] + s[1..];
    } else {
      assert Decode([]) == [];
    }
  }

  /** One of the five entities starts here. */
  predicate IsEntityAt(s: string, i: nat)
    requires i <= |s|
  {
    || StartsWith(s[i..], "&amp;") || StartsWith(s[i..], "&lt;") || StartsWith(s[i..], "&gt;")
    || StartsWith(s[i..], "&quot;") || StartsWith(s[i..], "&#039;")
  }

  /** No angle bracket and no quote is left, and every ampersand starts an entity. */
  lemma {:induction false} NoBareMarkup(s: string)
    ensures forall c :: c in EscapeHtml(s) ==> c != '<' && c != '>' && c != '"' && c != '\''
    ensures forall i :: 0 <= i < |EscapeHtml(s)| && EscapeHtml(s)[i] == '&' ==> IsEntityAt(EscapeHtml(s), i)
  {
    PassesAreOneSubstitution(s);
    hide EscapeHtml, IsEntityAt;
    NoBareEach(s);
    EntitiesEach(s);
  }

  lemma {:induction false} NoBareEach(s: string)
    ensures forall c :: c in EscapeEach(s) ==> c != '<' && c != '>' && c != '"' && c != '\''
  {
    if s != [] {
      NoBareEach(s[1..]);
    }
  }

  /** The substitution of one character has an ampersand only at its start, and there it is an entity. */
  lemma EntityOfChar(c: char, rest: string, i: nat)
    requires i < |EscapeChar(c)| && EscapeChar(c)[i] == '&'
    ensures IsEntityAt(EscapeChar(c) + rest, i)
  {
    var e := EscapeChar(c);
    assert i == 0;
    Splits(e, rest);
    assert (e + rest)[0..] == e + rest;
    hide StartsWith;
  }

  lemma {:induction false} EntitiesEach(s: string)
    ensures forall i :: 0 <= i < |EscapeEach(s)| && EscapeEach(s)[i] == '&' ==> IsEntityAt(EscapeEach(s), i)
  {
    if s != [] {
      var e, rest := EscapeChar(s[0]), EscapeEach(s[1..]);
      EntitiesEach(s[1..]);
      assert EscapeEach(s) == e + rest;
      hide EscapeEach, EscapeChar;
      forall i | 0 <= i < |e + rest| && (e + rest)[i] == '&' ensures IsEntityAt(e + rest, i) {
        if i < |e| {
          EntityOfChar(s[0], rest, i);
        } else {
          assert (e + rest)[i] == rest[i - |e|];
          assert (e + rest)[i..] == rest[i - |e|..];
        }
      }
    }
  }
}
