/** Whitespace normalization: `" ".join(value.split())`. */
module Text {

  /** The characters `str.split()` separates on. */
  predicate IsSpace(c: char) {
    var code := c as int;
    || 0x09 <= code <= 0x0D
    || 0x1C <= code <= 0x20
    || code == 0x85 || code == 0xA0 || code == 0x1680
    || 0x2000 <= code <= 0x200A
    || code == 0x2028 || code == 0x2029 || code == 0x202F || code == 0x205F || code == 0x3000
  }

  function SkipSpaces(s: string): (r: string)
    ensures |r| <= |s|
    ensures r == "" || !IsSpace(r[0])
  {
    if s != "" && IsSpace(s[0]) then SkipSpaces(s[1..]) else s
  }

  /** The number of leading characters before the first space. */
  function WordLength(s: string): (n: nat)
    ensures n <= |s|
    ensures forall i :: 0 <= i < n ==> !IsSpace(s[i])
    ensures n < |s| ==> IsSpace(s[n])
  {
    if s == "" || IsSpace(s[0]) then 0 else 1 + WordLength(s[1..])
  }

  function Split(s: string): seq<string>
    decreases |s|
  {
    var t := SkipSpaces(s);
    if t == "" then []
    else
      var n := WordLength(t);
      [t[..n]] + Split(t[n..])
  }

  function Join(words: seq<string>): string {
    if words == [] then ""
    else if |words| == 1 then words[0]
    else words[0] + " " + Join(words[1..])
  }

  function Normalize(s: string): string {
    Join(Split(s))
  }

  ghost predicate IsWord(w: string) {
    w != "" && forall c :: c in w ==> !IsSpace(c)
  }

  lemma {:induction false} SplitGivesWords(s: string)
    ensures forall w :: w in Split(s) ==> IsWord(w)
    decreases |s|
  {
    var t := SkipSpaces(s);
    if t != "" {
      SplitGivesWords(t[WordLength(t)..]);
    }
  }

  lemma {:induction false} WordLengthOf(w: string, rest: string)
    requires forall c :: c in w ==> !IsSpace(c)
    requires rest == "" || IsSpace(rest[0])
    ensures WordLength(w + rest) == |w|
  {
    if w == "" {
      assert w + rest == rest;
    } else {
      assert w[0] in w;
      assert (w + rest)[1..] == w[1..] + rest;
      WordLengthOf(w[1..], rest);
    }
  }

  lemma {:induction false} SplitOfJoin(words: seq<string>)
    requires forall w :: w in words ==> IsWord(w)
    ensures Split(Join(words)) == words
  {
    if words != [] {
      var w := words[0];
      assert w in words && w[0] in w;
      var rest := if |words| == 1 then "" else " " + Join(words[1..]);
      assert Join(words) == w + rest;
      WordLengthOf(w, rest);
      assert SkipSpaces(w + rest) == w + rest;
      assert (w + rest)[..|w|] == w && (w + rest)[|w|..] == rest;
      if |words| == 1 {
        assert Split(rest) == [];
      } else {
        SplitOfJoin(words[1..]);
        assert rest[1..] == Join(words[1..]);
        assert SkipSpaces(rest) == SkipSpaces(Join(words[1..]));
        assert Split(rest) == Split(Join(words[1..]));
      }
      assert words == [w] + words[1..];
    }
  }

  /** Normalizing normalized text changes nothing. */
  lemma NormalizeTwice(s: string)
    ensures Normalize(Normalize(s)) == Normalize(s)
  {
    SplitGivesWords(s);
    SplitOfJoin(Split(s));
  }

  /** Normalizing keeps the words, in order. */
  lemma NormalizeKeepsWords(s: string)
    ensures Split(Normalize(s)) == Split(s)
  {
    SplitGivesWords(s);
    SplitOfJoin(Split(s));
  }

  lemma {:induction false} SkipGap(gap: string, rest: string)
    requires forall c :: c in gap ==> IsSpace(c)
    ensures SkipSpaces(gap + rest) == SkipSpaces(rest)
  {
    if gap == "" {
      assert gap + rest == rest;
    } else {
      assert gap[0] in gap;
      assert (gap + rest)[1..] == gap[1..] + rest;
      SkipGap(gap[1..], rest);
    }
  }

  /** A gap of any length and of any whitespace separates two words like any other, and at either end means nothing. */
  lemma GapsSeparate(w: string, gap: string, rest: string)
    requires IsWord(w) && gap != "" && forall c :: c in gap ==> IsSpace(c)
    ensures Split(gap + rest) == Split(rest)
    ensures Split(w + gap + rest) == [w] + Split(rest)
    ensures Split(w) == [w] && Split(gap) == []
  {
    SkipGap(gap, rest);
    SkipGap(gap, "");
    assert gap + "" == gap;
    assert w[0] in w && gap[0] in gap;
    var s := w + gap + rest;
    assert s == w + (gap + rest);
    WordLengthOf(w, gap + rest);
    assert SkipSpaces(s) == s && s[..|w|] == w && s[|w|..] == gap + rest;
    SplitOfJoin([w]);
  }

  /** Normal text holds no whitespace but single blanks between words. */
  lemma {:induction false} JoinShape(words: seq<string>)
    requires forall w :: w in words ==> IsWord(w)
    ensures var s := Join(words);
            forall i :: 0 <= i < |s| && IsSpace(s[i]) ==>
              s[i] == ' ' && 0 < i < |s| - 1 && !IsSpace(s[i - 1]) && !IsSpace(s[i + 1])
    ensures words != [] ==> Join(words) != "" && !IsSpace(Join(words)[0])
  {
    if words != [] {
      var w := words[0];
      assert w in words;
      forall i | 0 <= i < |w| ensures !IsSpace(w[i]) {
        assert w[i] in w;
      }
      if |words| > 1 {
        var tail := Join(words[1..]);
        JoinShape(words[1..]);
        var s := Join(words);
        assert s == w + " " + tail;
        forall i | 0 <= i < |s| && IsSpace(s[i])
          ensures s[i] == ' ' && 0 < i < |s| - 1 && !IsSpace(s[i - 1]) && !IsSpace(s[i + 1])
        {
          if i == |w| {
            assert s[i - 1] == w[i - 1] && s[i + 1] == tail[0];
          } else {
            var k := i - |w| - 1;
            assert s[i] == tail[k];
            assert s[i - 1] == tail[k - 1] && s[i + 1] == tail[k + 1];
          }
        }
      }
    }
  }

  lemma NormalizeShape(s: string)
    ensures var r := Normalize(s);
            forall i :: 0 <= i < |r| && IsSpace(r[i]) ==>
              r[i] == ' ' && 0 < i < |r| - 1 && !IsSpace(r[i - 1]) && !IsSpace(r[i + 1])
  {
    SplitGivesWords(s);
    JoinShape(Split(s));
  }
}
