/** `replaceAccents`: canonical decomposition followed by deletion of every combining
    diacritical mark (U+0300 to U+036F). */
module Accents {

  /** A code unit of the Combining Diacritical Marks block, which the regular expression
      `/[\u0300-\u036f]/g` deletes. */
  predicate IsCombiningMark(c: char)
  {
    '\U{300}' <= c <= '\U{36F}'
  }

  predicate IsAscii(s: string)
  {
    forall i :: 0 <= i < |s| ==> s[i] < '\U{80}'
  }

  /** What the model assumes of `String.prototype.normalize('NFD')`, which it takes as a
      parameter: canonical decomposition leaves ASCII text alone. */
  ghost predicate NfdLaws(nfd: string -> string)
  {
    forall s :: IsAscii(s) ==> nfd(s) == s
  }

  /** The deletion step: every combining mark removed, everything else kept in order. */
  function StripMarks(s: string): (r: string)
    ensures forall i :: 0 <= i < |r| ==> !IsCombiningMark(r[i])
    ensures |r| <= |s|
  {
    if s == [] then []
    else (if IsCombiningMark(s[0]) then [] else [s[0]]) + StripMarks(s[1..])
  }

  /** `replaceAccents(s)`: the decomposition of `s` with its combining marks deleted. */
  function ReplaceAccents(nfd: string -> string, s: string): (r: string)
    ensures forall i :: 0 <= i < |r| ==> !IsCombiningMark(r[i])
    ensures |r| <= |nfd(s)|
  {
    StripMarks(nfd(s))
  }

  /** Deletion works character by character: it distributes over concatenation. */
  lemma {:induction false} StripMarksAppend(a: string, b: string)
    ensures StripMarks(a + b) == StripMarks(a) + StripMarks(b)
  {
    if a == [] {
      assert a + b == b;
    } else {
      assert (a + b)[1..] == a[1..] + b;
      StripMarksAppend(a[1..], b);
    }
  }

  /** A string without combining marks is left exactly as it is. */
  lemma {:induction false} StripMarksKeepsUnmarked(s: string)
    requires forall i :: 0 <= i < |s| ==> !IsCombiningMark(s[i])
    ensures StripMarks(s) == s
  {
    if s != [] {
      StripMarksKeepsUnmarked(s[1..]);
    }
  }

  /** Every character that is not a combining mark survives as often as it occurs. */
  lemma {:induction false} StripMarksCounts(s: string, c: char)
    requires !IsCombiningMark(c)
    ensures multiset(StripMarks(s))[c] == multiset(s)[c]
  {
    if s != [] {
      StripMarksCounts(s[1..], c);
      assert s == [s[0]] + s[1..];
    }
  }

  /** With a decomposition obeying `NfdLaws`, ASCII input goes through `replaceAccents`
      unchanged. */
  lemma ReplaceAccentsOnAscii(nfd: string -> string, s: string)
    requires NfdLaws(nfd) && IsAscii(s)
    ensures ReplaceAccents(nfd, s) == s
  {
    StripMarksKeepsUnmarked(s);
  }

  /** A fragment of the canonical decomposition table: the accented lower-case letters of
      Dutch and French place names. Every other character is its own decomposition. */
  function DecomposeLatin(c: char): string
  {
    if c < '\U{80}' then [c]
    else match c
    case '\U{E0}' => "a\U{300}"
    case '\U{E8}' => "e\U{300}"
    case '\U{E9}' => "e\U{301}"
    case '\U{EA}' => "e\U{302}"
    case '\U{EB}' => "e\U{308}"
    case '\U{EF}' => "i\U{308}"
    case '\U{F4}' => "o\U{302}"
    case '\U{FC}' => "u\U{308}"
    case '\U{E7}' => "c\U{327}"
    case _ => [c]
  }

  /** Decomposition by the table above, character by character. */
  function LatinNfd(s: string): string
  {
    if s == [] then [] else DecomposeLatin(s[0]) + LatinNfd(s[1..])
  }

  lemma {:induction false} LatinNfdAppend(a: string, b: string)
    ensures LatinNfd(a + b) == LatinNfd(a) + LatinNfd(b)
  {
    if a == [] {
      assert a + b == b;
    } else {
      assert (a + b)[1..] == a[1..] + b;
      LatinNfdAppend(a[1..], b);
    }
  }

  lemma {:induction false} LatinNfdOnAscii(s: string)
    requires IsAscii(s)
    ensures LatinNfd(s) == s
  {
    if s != [] {
      LatinNfdOnAscii(s[1..]);
    }
  }

  /** The laws the model assumes of `nfd` can be met. */
  lemma LatinNfdObeysLaws()
    ensures NfdLaws(LatinNfd)
  {
    forall s | IsAscii(s)
      ensures LatinNfd(s) == s
    {
      LatinNfdOnAscii(s);
    }
  }

  /** The default country name loses its diaeresis. */
  lemma ReplaceAccentsOfDefaultCountry()
    ensures ReplaceAccents(LatinNfd, "Belgi\U{EB}") == "Belgie"
  {
    assert LatinNfd("Belgi\U{EB}") == "Belgie\U{308}" by {
      assert "Belgi\U{EB}" == "Belgi" + "\U{EB}";
      LatinNfdAppend("Belgi", "\U{EB}");
      LatinNfdOnAscii("Belgi");
      assert LatinNfd("\U{EB}") == DecomposeLatin('\U{EB}') + LatinNfd([]);
    }
    assert "Belgie\U{308}" == "Belgie" + "\U{308}";
    StripMarksAppend("Belgie", "\U{308}");
    StripMarksKeepsUnmarked("Belgie");
    assert StripMarks("\U{308}") == [];
  }
}
