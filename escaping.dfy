/**
 * Escaping of text content (`Text::ScreenCharacter` and `Text::ScreenData`,
 * svg.cpp): every `&`, `"`, `<`, `>` and `'` is replaced by its predefined
 * entity (section 4.6 of XML 1.0; section 2.4 requires it only of `&` and `<`).
 */
module Escaping {
  import opened Options

  // ---------- the string operations the C++ code uses ----------

  /** `str.find_first_of(c, from)`: the first position of `c` at or after `from`. */
  function FindFirstOf(s: string, c: char, from: nat): (r: Option<nat>)
    ensures r.Some? ==> from <= r.value < |s| && s[r.value] == c
    ensures r.Some? ==> forall i :: from <= i < r.value ==> s[i] != c
    ensures r.None? ==> forall i :: from <= i < |s| ==> s[i] != c
    decreases |s| - from
  {
    if from >= |s| then None
    else if s[from] == c then Some(from)
    else FindFirstOf(s, c, from + 1)
  }

  // ---------- specification ----------

  /** `s` with every occurrence of `c` replaced by `v`, in one pass. */
  function Replace(s: string, c: char, v: string): string {
    if s == [] then []
    else Replace(s[..|s| - 1], c, v) + (if s[|s| - 1] == c then v else [s[|s| - 1]])
  }

  /** The entity reference for a reserved character; any other character stands for itself. */
  function Entity(ch: char): string {
    match ch
    case '&' => "&amp;"
    case '"' => "&quot;"
    case '<' => "&lt;"
    case '>' => "&gt;"
    case '\'' => "&apos;"
    case _ => [ch]
  }

  predicate IsReserved(ch: char) {
    ch == '&' || ch == '"' || ch == '<' || ch == '>' || ch == '\''
  }

  /** The concatenation of `f` applied to each character of `s`, in order. */
  function FlatMap(s: string, f: char -> string): string {
    if s == [] then []
    else FlatMap(s[..|s| - 1], f) + f(s[|s| - 1])
  }

  /** Escaping as a per-character map: each character replaced by its entity. */
  function Escape(s: string): string {
    FlatMap(s, Entity)
  }

  /** The five passes `ScreenData` makes, in its order, each over the previous pass's result. */
  function ScreenPasses(s: string): string {
    var amp := Replace(s, '&', "&amp;");
    var quot := Replace(amp, '"', "&quot;");
    var lt := Replace(quot, '<', "&lt;");
    var gt := Replace(lt, '>', "&gt;");
    Replace(gt, '\'', "&apos;")
  }

  /** Reads entity references back; an `&` that starts none of the five stays as it is. */
  function Unescape(s: string): string
    decreases |s|
  {
    if s == [] then []
    else if s[0] != '&' then [s[0]] + Unescape(s[1..])
    else if "&amp;" <= s then "&" + Unescape(s[5..])
    else if "&quot;" <= s then "\"" + Unescape(s[6..])
    else if "&lt;" <= s then "<" + Unescape(s[4..])
    else if "&gt;" <= s then ">" + Unescape(s[4..])
    else if "&apos;" <= s then "'" + Unescape(s[6..])
    else "&" + Unescape(s[1..])
  }

  /** How many times `ch` occurs in `s`. */
  function Count(s: string, ch: char): nat {
    if s == [] then 0
    else Count(s[..|s| - 1], ch) + (if s[|s| - 1] == ch then 1 else 0)
  }

  // ---------- lemmas about the specification ----------

  lemma {:induction false} ReplaceAppend(a: string, b: string, c: char, v: string)
    ensures Replace(a + b, c, v) == Replace(a, c, v) + Replace(b, c, v)
    decreases |b|
  {
    if b == [] {
      assert a + b == a;
    } else {
      var b' := b[..|b| - 1];
      assert (a + b)[..|a + b| - 1] == a + b';
      assert (a + b)[|a + b| - 1] == b[|b| - 1];
      ReplaceAppend(a, b', c, v);
    }
  }

  /** Replacing a character that does not occur changes nothing. */
  lemma {:induction false} ReplaceAbsent(s: string, c: char, v: string)
    requires forall i :: 0 <= i < |s| ==> s[i] != c
    ensures Replace(s, c, v) == s
    decreases |s|
  {
    if s != [] {
      ReplaceAbsent(s[..|s| - 1], c, v);
    }
  }

  lemma {:induction false} FlatMapAppend(a: string, b: string, f: char -> string)
    ensures FlatMap(a + b, f) == FlatMap(a, f) + FlatMap(b, f)
    decreases |b|
  {
    if b == [] {
      assert a + b == a;
    } else {
      var b' := b[..|b| - 1];
      assert (a + b)[..|a + b| - 1] == a + b';
      assert (a + b)[|a + b| - 1] == b[|b| - 1];
      FlatMapAppend(a, b', f);
    }
  }

  lemma FlatMapOne(x: char, f: char -> string)
    ensures FlatMap([x], f) == f(x)
  {
    assert [x][..0] == [];
  }

  lemma ScreenPassesAppend(a: string, b: string)
    ensures ScreenPasses(a + b) == ScreenPasses(a) + ScreenPasses(b)
  {
    var amp1, amp2 := Replace(a, '&', "&amp;"), Replace(b, '&', "&amp;");
    ReplaceAppend(a, b, '&', "&amp;");
    var quot1, quot2 := Replace(amp1, '"', "&quot;"), Replace(amp2, '"', "&quot;");
    ReplaceAppend(amp1, amp2, '"', "&quot;");
    var lt1, lt2 := Replace(quot1, '<', "&lt;"), Replace(quot2, '<', "&lt;");
    ReplaceAppend(quot1, quot2, '<', "&lt;");
    var gt1, gt2 := Replace(lt1, '>', "&gt;"), Replace(lt2, '>', "&gt;");
    ReplaceAppend(lt1, lt2, '>', "&gt;");
    ReplaceAppend(gt1, gt2, '\'', "&apos;");
  }

  lemma ReplaceOne(x: char, c: char, v: string)
    ensures Replace([x], c, v) == if x == c then v else [x]
  {
    assert [x][..0] == [];
  }

  /** A string holding neither `c1` nor `c2` passes unchanged through two passes. */
  lemma ThroughTwo(e: string, c1: char, v1: string, c2: char, v2: string)
    requires forall i :: 0 <= i < |e| ==> e[i] != c1 && e[i] != c2
    ensures Replace(Replace(e, c1, v1), c2, v2) == e
  {
    ReplaceAbsent(e, c1, v1);
    ReplaceAbsent(e, c2, v2);
  }

  /** A string holding none of `c1`, `c2`, `c3` passes unchanged through three passes. */
  lemma ThroughThree(e: string, c1: char, v1: string, c2: char, v2: string, c3: char, v3: string)
    requires forall i :: 0 <= i < |e| ==> e[i] != c1 && e[i] != c2 && e[i] != c3
    ensures Replace(Replace(Replace(e, c1, v1), c2, v2), c3, v3) == e
  {
    ThroughTwo(e, c1, v1, c2, v2);
    ReplaceAbsent(e, c3, v3);
  }

  /** On a single character the five passes give its entity: no entity is escaped again. */
  lemma ScreenPassesOne(x: char)
    ensures ScreenPasses([x]) == Entity(x)
  {
    var e := Entity(x);
    ReplaceOne(x, '&', "&amp;");
    if x == '&' {
      ThroughTwo(e, '"', "&quot;", '<', "&lt;");
      ThroughTwo(e, '>', "&gt;", '\'', "&apos;");
    } else {
      ReplaceOne(x, '"', "&quot;");
      if x == '"' {
        ThroughThree(e, '<', "&lt;", '>', "&gt;", '\'', "&apos;");
      } else {
        ReplaceOne(x, '<', "&lt;");
        if x == '<' {
          ThroughTwo(e, '>', "&gt;", '\'', "&apos;");
        } else {
          ReplaceOne(x, '>', "&gt;");
          ReplaceOne(x, '\'', "&apos;");
          if x == '>' {
            ReplaceAbsent(e, '\'', "&apos;");
          }
        }
      }
    }
  }

  /** The five passes of `ScreenData` equal the per-character map. */
  lemma {:induction false} ScreenPassesAreEscape(s: string)
    ensures ScreenPasses(s) == Escape(s)
    decreases |s|
  {
    if s != [] {
      var t, x := s[..|s| - 1], s[|s| - 1];
      assert s == t + [x];
      ScreenPassesAppend(t, [x]);
      ScreenPassesOne(x);
      ScreenPassesAreEscape(t);
      FlatMapAppend(t, [x], Entity);
      FlatMapOne(x, Entity);
    }
  }

  /** The last character's entity follows the escaped prefix. */
  lemma EscapeLast(s: string)
    requires s != []
    ensures Escape(s) == Escape(s[..|s| - 1]) + Entity(s[|s| - 1])
  {
  }

  /** Text without reserved characters is left as it is. */
  lemma {:induction false} EscapeSafeText(s: string)
    requires forall i :: 0 <= i < |s| ==> !IsReserved(s[i])
    ensures Escape(s) == s
    decreases |s|
  {
    if s != [] {
      EscapeLast(s);
      EscapeSafeText(s[..|s| - 1]);
      var x := s[|s| - 1];
      assert !IsReserved(x);
      assert Entity(x) == [x];
    }
  }

  function ExtraLength(x: char): nat {
    if x == '&' then 4
    else if x == '"' || x == '\'' then 5
    else if x == '<' || x == '>' then 3
    else 0
  }

  lemma EntityLength(x: char)
    ensures |Entity(x)| == 1 + ExtraLength(x)
  {
  }

  /** Each reserved character grows the text by its entity's length less one. */
  lemma {:induction false} EscapeLength(s: string)
    ensures |Escape(s)| == |s| + 4 * Count(s, '&') + 5 * Count(s, '"') + 3 * Count(s, '<')
                           + 3 * Count(s, '>') + 5 * Count(s, '\'')
    decreases |s|
  {
    if s != [] {
      EscapeLast(s);
      EscapeLength(s[..|s| - 1]);
      EntityLength(s[|s| - 1]);
    }
  }

  /** No entity contains a reserved character other than its leading `&`. */
  lemma EntityHasNoMarkup(x: char)
    ensures forall i :: 0 <= i < |Entity(x)| ==> !IsReserved(Entity(x)[i]) || Entity(x)[i] == '&'
  {
  }

  /** Escaped text contains no reserved character other than the `&` that starts each entity. */
  lemma {:induction false} EscapeLeavesNoMarkup(s: string)
    ensures forall i :: 0 <= i < |Escape(s)| ==> !IsReserved(Escape(s)[i]) || Escape(s)[i] == '&'
    decreases |s|
  {
    if s != [] {
      EscapeLast(s);
      EscapeLeavesNoMarkup(s[..|s| - 1]);
      EntityHasNoMarkup(s[|s| - 1]);
      var a, b := Escape(s[..|s| - 1]), Entity(s[|s| - 1]);
      assert forall i :: |a| <= i < |a + b| ==> (a + b)[i] == b[i - |a|];
    }
  }

  /** Reading back an entity gives the character it stands for. */
  lemma UnescapeEntity(x: char, rest: string)
    ensures Unescape(Entity(x) + rest) == [x] + Unescape(rest)
  {
    var e := Entity(x) + rest;
    assert e[|Entity(x)|..] == rest;
    if x == '&' {
      assert "&amp;" <= e;
    } else if x == '"' {
      assert !("&amp;" <= e) by { assert e[1] == 'q'; }
      assert "&quot;" <= e;
    } else if x == '<' {
      UnescapeLt(rest);
    } else if x == '>' {
      UnescapeGt(rest);
    } else if x == '\'' {
      UnescapeApos(rest);
    } else {
      assert e[0] == x;
    }
  }

  lemma UnescapeLt(rest: string)
    ensures Unescape("&lt;" + rest) == "<" + Unescape(rest)
  {
    var e := "&lt;" + rest;
    assert e[4..] == rest;
    assert !("&amp;" <= e) by { assert e[1] == 'l'; }
    assert !("&quot;" <= e) by { assert e[1] == 'l'; }
  }

  lemma UnescapeGt(rest: string)
    ensures Unescape("&gt;" + rest) == ">" + Unescape(rest)
  {
    var e := "&gt;" + rest;
    assert e[4..] == rest;
    assert !("&amp;" <= e) by { assert e[1] == 'g'; }
    assert !("&quot;" <= e) by { assert e[1] == 'g'; }
    assert !("&lt;" <= e) by { assert e[1] == 'g'; }
  }

  lemma UnescapeApos(rest: string)
    ensures Unescape("&apos;" + rest) == "'" + Unescape(rest)
  {
    var e := "&apos;" + rest;
    assert e[6..] == rest;
    assert !("&amp;" <= e) by { assert e[2] == 'p'; }
    assert !("&quot;" <= e) by { assert e[1] == 'a'; }
    assert !("&lt;" <= e) by { assert e[1] == 'a'; }
    assert !("&gt;" <= e) by { assert e[1] == 'a'; }
  }

  /** Escaping loses nothing: each entity stands for exactly one original character. */
  lemma {:induction false} UnescapeEscape(s: string)
    ensures Unescape(Escape(s)) == s
    decreases |s|
  {
    if s != [] {
      var x, t := s[0], s[1..];
      assert s == [x] + t;
      FlatMapAppend([x], t, Entity);
      FlatMapOne(x, Entity);
      UnescapeEntity(x, Escape(t));
      UnescapeEscape(t);
    }
  }

  // ---------- the code ----------

  /**
   * `Text::ScreenCharacter`: replaces each `c` in `str` by `value`, searching
   * again one position after each replacement. The search would find `c`
   * again inside `value` if it occurred after the first character, and an
   * empty `value` would skip a character; the five calls of `ScreenData` meet
   * both conditions.
   */
  method ScreenCharacter(str: string, c: char, value: string) returns (res: string)
    requires |value| > 0 && forall i :: 1 <= i < |value| ==> value[i] != c
    ensures res == Replace(str, c, value)
  {
    res := str;
    var cPos := FindFirstOf(res, c, 0);
    ghost var k: nat := ScreenStart(str, c, value, cPos);
    if cPos.Some? {
      while cPos.Some?
        invariant k <= |str|
        invariant res == Replace(str[..k], c, value) + str[k..]
        invariant cPos.Some? ==> k < |str| && str[k] == c && cPos.value == |Replace(str[..k], c, value)|
        invariant cPos.None? ==> forall i :: k <= i < |str| ==> str[i] != c
        decreases if cPos.Some? then |str| - k + 1 else 0
      {
        var p := cPos.value;
        ScreenStep(str, c, value, k, res, p);
        res := res[..p] + value + res[p + 1..];
        cPos := FindFirstOf(res, c, p + 1);
        k := NextOccurrence(str, c, value, k + 1, res, p + 1, cPos);
      }
    }
    ScreenDone(str, c, value, k, res);
  }

  /** Before the loop: everything ahead of the first `c` is already in its final form. */
  lemma ScreenStart(str: string, c: char, value: string, found: Option<nat>) returns (k: nat)
    requires found == FindFirstOf(str, c, 0)
    ensures k <= |str|
    ensures str == Replace(str[..k], c, value) + str[k..]
    ensures found.Some? ==> k < |str| && str[k] == c && found.value == |Replace(str[..k], c, value)|
    ensures found.None? ==> forall i :: k <= i < |str| ==> str[i] != c
  {
    k := if found.Some? then found.value else 0;
    ReplaceAbsent(str[..k], c, value);
    assert str == str[..k] + str[k..];
  }

  /** After the loop: no `c` is left in the part not yet replaced. */
  lemma ScreenDone(str: string, c: char, value: string, k: nat, res: string)
    requires k <= |str|
    requires res == Replace(str[..k], c, value) + str[k..]
    requires forall i :: k <= i < |str| ==> str[i] != c
    ensures res == Replace(str, c, value)
  {
    ReplaceAppend(str[..k], str[k..], c, value);
    ReplaceAbsent(str[k..], c, value);
    assert str[..k] + str[k..] == str;
  }

  /** One replacement moves one more character of the original into the replaced prefix. */
  lemma ScreenStep(str: string, c: char, value: string, k: nat, res: string, p: nat)
    requires k < |str| && str[k] == c
    requires res == Replace(str[..k], c, value) + str[k..]
    requires p == |Replace(str[..k], c, value)|
    ensures Replace(str[..k + 1], c, value) == Replace(str[..k], c, value) + value
    ensures p < |res| && res[..p] + value + res[p + 1..] == Replace(str[..k + 1], c, value) + str[k + 1..]
  {
    assert str[..k + 1][..k] == str[..k];
    assert res[..p] == Replace(str[..k], c, value);
    assert res[p + 1..] == str[k + 1..];
  }

  /** The unreplaced part of `str` sits, unchanged, right after the replaced prefix. */
  lemma ScreenedTail(str: string, c: char, value: string, k: nat, res: string)
    requires k <= |str|
    requires res == Replace(str[..k], c, value) + str[k..]
    ensures |res| == |Replace(str[..k], c, value)| + (|str| - k)
    ensures forall i :: k <= i < |str| ==> res[|Replace(str[..k], c, value)| + i - k] == str[i]
  {
  }

  /** The search resumes inside the value just written, which holds no further `c`. */
  lemma SearchSkipsValue(str: string, c: char, value: string, k: nat, res: string, from: nat, found: Option<nat>)
    requires 0 < k <= |str| && |value| > 0 && forall i :: 1 <= i < |value| ==> value[i] != c
    requires str[k - 1] == c
    requires res == Replace(str[..k], c, value) + str[k..]
    requires from == |Replace(str[..k], c, value)| - |value| + 1
    requires found == FindFirstOf(res, c, from)
    ensures found.Some? ==> found.value >= |Replace(str[..k], c, value)|
  {
    var done := Replace(str[..k], c, value);
    assert str[..k][..k - 1] == str[..k - 1];
    assert done == Replace(str[..k - 1], c, value) + value;
    assert forall i :: from <= i < |done| ==> res[i] == value[i - from + 1];
  }

  /**
   * The result of the search after a replacement, as a position in the
   * original: the next `c` at or after `k`, or `k` itself when none is left.
   */
  lemma NextOccurrence(str: string, c: char, value: string, k: nat, res: string, from: nat, found: Option<nat>)
      returns (k': nat)
    requires 0 < k <= |str| && |value| > 0 && forall i :: 1 <= i < |value| ==> value[i] != c
    requires str[k - 1] == c
    requires res == Replace(str[..k], c, value) + str[k..]
    requires from == |Replace(str[..k], c, value)| - |value| + 1
    requires found == FindFirstOf(res, c, from)
    ensures k <= k' <= |str|
    ensures res == Replace(str[..k'], c, value) + str[k'..]
    ensures found.Some? ==> k' < |str| && str[k'] == c && found.value == |Replace(str[..k'], c, value)|
    ensures found.None? ==> forall i :: k' <= i < |str| ==> str[i] != c
  {
    SearchSkipsValue(str, c, value, k, res, from, found);
    ScreenedTail(str, c, value, k, res);
    var d := |Replace(str[..k], c, value)|;
    match found
    case None =>
      k' := k;
      forall i | k <= i < |str|
        ensures str[i] != c
      {
        assert res[d + i - k] == str[i];
      }
    case Some(q) =>
      k' := k + (q - d);
      assert res[d + k' - k] == str[k'];
      forall i | k <= i < k'
        ensures str[i] != c
      {
        assert res[d + i - k] == str[i];
      }
      Extend(str, c, value, k, k');
  }

  /** A stretch without `c` passes through replacement unchanged. */
  lemma Extend(str: string, c: char, value: string, k: nat, k': nat)
    requires k <= k' <= |str|
    requires forall i :: k <= i < k' ==> str[i] != c
    ensures Replace(str[..k], c, value) + str[k..] == Replace(str[..k'], c, value) + str[k'..]
    ensures |Replace(str[..k'], c, value)| == |Replace(str[..k], c, value)| + (k' - k)
  {
    var mid := str[k..k'];
    forall i | 0 <= i < |mid|
      ensures mid[i] != c
    {
      assert mid[i] == str[k + i];
    }
    ReplaceAbsent(mid, c, value);
    assert str[..k] + mid == str[..k'];
    ReplaceAppend(str[..k], mid, c, value);
    var before := Replace(str[..k], c, value);
    assert Replace(str[..k'], c, value) == before + mid;
    assert str[k..] == mid + str[k'..];
    assert before + (mid + str[k'..]) == before + mid + str[k'..];
    assert |Replace(str[..k'], c, value)| == |before| + |mid| && |mid| == k' - k;
  }

  /** `Text::ScreenData`: the five replacements, `&` first. */
  method ScreenData(str: string) returns (res: string)
    ensures res == Escape(str)
  {
    res := ScreenCharacter(str, '&', "&amp;");
    res := ScreenCharacter(res, '"', "&quot;");
    res := ScreenCharacter(res, '<', "&lt;");
    res := ScreenCharacter(res, '>', "&gt;");
    res := ScreenCharacter(res, '\'', "&apos;");
    ScreenPassesAreEscape(str);
  }
}
