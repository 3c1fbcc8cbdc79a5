/** The name sanitiser `sanitize` (collectd.py:96-97): every run of characters
    other than ASCII letters and digits becomes one underscore, and
    underscores at either end are stripped. */
module Sanitizer {
  import opened Python

  /** A character of the class `[a-zA-Z0-9]`. */
  predicate IsAlnum(c: Byte) {
    'a' <= c <= 'z' || 'A' <= c <= 'Z' || '0' <= c <= '9'
  }

  predicate AllAlnum(s: Bytes) {
    forall i :: 0 <= i < |s| ==> IsAlnum(s[i])
  }

  predicate NoAlnum(s: Bytes) {
    forall i :: 0 <= i < |s| ==> !IsAlnum(s[i])
  }

  /** `s` without the longest prefix that matches `[^a-zA-Z0-9]*`. */
  function DropRun(s: Bytes): (r: Bytes)
    ensures |r| <= |s|
    ensures r == [] || IsAlnum(r[0])
    ensures s != [] && !IsAlnum(s[0]) ==> |r| < |s|
  {
    if s == [] || IsAlnum(s[0]) then s else DropRun(s[1..])
  }

  /** What DropRun leaves is a suffix, and what it drops is a run of
      characters other than letters and digits. */
  lemma {:induction false} DropRunSplits(s: Bytes)
    ensures var r := DropRun(s); r == s[|s| - |r|..] && NoAlnum(s[..|s| - |r|])
  {
    if s != [] && !IsAlnum(s[0]) {
      DropRunSplits(s[1..]);
      var r := DropRun(s);
      assert s[..|s| - |r|] == [s[0]] + s[1..][..|s[1..]| - |r|];
    }
  }

  /** The longest prefix of `s` that matches `[a-zA-Z0-9]*`. */
  function TakeWord(s: Bytes): (w: Bytes)
    ensures |w| <= |s| && w == s[..|w|] && AllAlnum(w)
    ensures |w| < |s| ==> !IsAlnum(s[|w|])
  {
    if s == [] || !IsAlnum(s[0]) then []
    else [s[0]] + TakeWord(s[1..])
  }

  /** `re.sub(r"[^a-zA-Z0-9]+", "_", s)`: scanning from the left, a letter or
      digit is kept, and a maximal run of other characters is replaced by a
      single underscore. */
  function Collapse(s: Bytes): Bytes
    decreases |s|
  {
    if s == [] then []
    else if IsAlnum(s[0]) then [s[0]] + Collapse(s[1..])
    else "_" + Collapse(DropRun(s))
  }

  /** `s.lstrip("_")`. */
  function StripLeft(s: Bytes): (r: Bytes)
    ensures r == [] || r[0] != '_'
  {
    if s != [] && s[0] == '_' then StripLeft(s[1..]) else s
  }

  /** `s.rstrip("_")`. */
  function StripRight(s: Bytes): (r: Bytes)
    ensures r == [] || r[|r| - 1] != '_'
  {
    if s != [] && s[|s| - 1] == '_' then StripRight(s[..|s| - 1]) else s
  }

  /** `s.strip("_")`. */
  function Strip(s: Bytes): Bytes {
    StripRight(StripLeft(s))
  }

  /** sanitize(s). */
  function Sanitize(s: Bytes): Bytes {
    Strip(Collapse(s))
  }

  /** The maximal runs of letters and digits of `s`, in order: an independent
      description of what `sanitize` keeps. */
  function Words(s: Bytes): seq<Bytes>
    decreases |s|
  {
    var t := DropRun(s);
    if t == [] then []
    else
      var w := TakeWord(t);
      [w] + Words(t[|w|..])
  }

  /** Non-empty runs of letters and digits. */
  predicate AreWords(ws: seq<Bytes>) {
    forall i :: 0 <= i < |ws| ==> ws[i] != [] && AllAlnum(ws[i])
  }

  /** What Words splits off are words. */
  lemma {:induction false} WordsAreWords(s: Bytes)
    ensures AreWords(Words(s))
    decreases |s|
  {
    var t := DropRun(s);
    if t != [] {
      var w := TakeWord(t);
      WordsAreWords(t[|w|..]);
      var ws := Words(s);
      assert ws == [w] + Words(t[|w|..]);
      forall i | 0 <= i < |ws| ensures ws[i] != [] && AllAlnum(ws[i]) {
        if i > 0 {
          assert ws[i] == Words(t[|w|..])[i - 1];
        }
      }
    }
  }

  /** `"_".join(ws)`. */
  function Join(ws: seq<Bytes>): Bytes {
    if ws == [] then []
    else if |ws| == 1 then ws[0]
    else ws[0] + "_" + Join(ws[1..])
  }

  /** A name `sanitize` can return: letters, digits and single underscores,
      with no underscore at either end. */
  predicate Clean(s: Bytes) {
    && (forall i :: 0 <= i < |s| ==> IsAlnum(s[i]) || s[i] == '_')
    && (forall i :: 0 <= i < |s| - 1 ==> !(s[i] == '_' && s[i + 1] == '_'))
    && (s != [] ==> s[0] != '_' && s[|s| - 1] != '_')
  }

  /** Letters and digits pass through the substitution untouched. */
  lemma {:induction false} CollapseWord(w: Bytes, rest: Bytes)
    requires AllAlnum(w)
    ensures Collapse(w + rest) == w + Collapse(rest)
  {
    if w != [] {
      var s := w + rest;
      assert s[0] == w[0] && IsAlnum(w[0]);
      assert s[1..] == w[1..] + rest;
      assert Collapse(s) == [w[0]] + Collapse(w[1..] + rest);
      CollapseWord(w[1..], rest);
      assert [w[0]] + (w[1..] + Collapse(rest)) == w + Collapse(rest);
    } else {
      assert w + rest == rest;
    }
  }

  /** A word and what follows it. */
  lemma WordsFront(t: Bytes)
    requires t != [] && IsAlnum(t[0])
    ensures TakeWord(t) != [] && Words(t) == [TakeWord(t)] + Words(t[|TakeWord(t)|..])
  {
    assert DropRun(t) == t;
    assert TakeWord(t) == [t[0]] + TakeWord(t[1..]);
  }

  /** One step of the scan at a letter or digit: the word there is kept. */
  lemma WordStep(s: Bytes)
    requires s != [] && IsAlnum(s[0])
    ensures var w := TakeWord(s); var rest := s[|w|..];
            && w != [] && AllAlnum(w) && (rest == [] || !IsAlnum(rest[0]))
            && Collapse(s) == w + Collapse(rest)
            && Words(s) == [w] + Words(rest)
            && Tail(s) == (if rest == [] then [] else Tail(rest))
  {
    CollapseFront(s);
    WordsFront(s);
    TailFront(s);
  }

  lemma CollapseFront(s: Bytes)
    ensures var w := TakeWord(s); Collapse(s) == w + Collapse(s[|w|..])
  {
    var w := TakeWord(s);
    var rest := s[|w|..];
    assert s == w + rest;
    CollapseWord(w, rest);
  }

  lemma TailFront(s: Bytes)
    requires s != [] && IsAlnum(s[0])
    ensures var w := TakeWord(s); var rest := s[|w|..];
            Tail(s) == (if rest == [] then [] else Tail(rest))
  {
    var w := TakeWord(s);
    var rest := s[|w|..];
    assert w == [s[0]] + TakeWord(s[1..]);
    if rest == [] {
      assert s[|s| - 1] == w[|w| - 1];
    } else {
      assert s[|s| - 1] == rest[|rest| - 1];
    }
  }

  /** One step of the scan at any other character: the run there becomes one
      underscore and holds no word. */
  lemma RunStep(r: Bytes)
    requires r != [] && !IsAlnum(r[0])
    ensures var u := DropRun(r);
            && Collapse(r) == "_" + Collapse(u)
            && Words(r) == Words(u)
            && Tail(r) == (if u == [] then "_" else Tail(u))
  {
    var u := DropRun(r);
    DropRunSplits(r);
    if u != [] {
      assert r[|r| - 1] == u[|u| - 1];
    }
  }

  /** Text that starts with a letter or digit becomes its words joined by
      underscores, plus one underscore if it ends with a run of other
      characters. */
  lemma {:induction false} CollapseWords(s: Bytes)
    requires s == [] || IsAlnum(s[0])
    ensures Collapse(s) == Join(Words(s)) + Tail(s)
    decreases |s|
  {
    if s == [] {
      assert Words(s) == [];
    } else {
      WordStep(s);
      var w := TakeWord(s);
      var rest := s[|w|..];
      if rest == [] {
        assert Words(rest) == [] && Collapse(rest) == [];
        assert [w] + [] == [w];
        assert w + [] == w;
      } else {
        RunStep(rest);
        var u := DropRun(rest);
        CollapseWords(u);
        if u == [] {
          assert Words(u) == [] && Collapse(u) == [];
          assert [w] + [] == [w];
          assert w + ("_" + []) == w + "_";
        } else {
          var ws := Words(u);
          WordsFront(u);
          JoinCons(w, ws);
          Regroup(w, "_", Join(ws), Tail(u));
        }
      }
    }
  }

  /** The underscore `re.sub` leaves after `s` when `s` ends with a run of
      characters other than letters and digits. */
  function Tail(s: Bytes): Bytes {
    if s != [] && !IsAlnum(s[|s| - 1]) then "_" else []
  }

  lemma Regroup(a: Bytes, b: Bytes, c: Bytes, d: Bytes)
    ensures a + (b + (c + d)) == a + b + c + d
  {
  }

  lemma Regroup3(a: Bytes, b: Bytes, c: Bytes)
    ensures a + (b + c) == a + b + c
  {
  }

  lemma JoinCons(w: Bytes, ws: seq<Bytes>)
    requires ws != []
    ensures Join([w] + ws) == w + "_" + Join(ws)
  {
    assert ([w] + ws)[1..] == ws;
  }

  /** A joined list of words begins and ends with a letter or digit. */
  lemma {:induction false} JoinEnds(ws: seq<Bytes>)
    requires ws != [] && AreWords(ws)
    ensures var j := Join(ws); j != [] && IsAlnum(j[0]) && IsAlnum(j[|j| - 1])
  {
    if |ws| > 1 {
      JoinEnds(ws[1..]);
    }
  }

  lemma StripFrame(front: Bytes, middle: Bytes, back: Bytes)
    requires front == [] || front == "_"
    requires back == [] || back == "_"
    requires middle != [] && middle[0] != '_' && middle[|middle| - 1] != '_'
    ensures Strip(front + middle + back) == middle
  {
    var left := middle + back;
    assert left[0] == middle[0];
    assert StripLeft(front + middle + back) == left by {
      if front == "_" {
        assert (front + middle + back)[1..] == left;
      } else {
        assert front + middle + back == left;
      }
    }
    if back == "_" {
      assert left[|left| - 1] == '_' && left[..|left| - 1] == middle;
      assert StripRight(middle) == middle;
    } else {
      assert left == middle;
    }
  }

  /** `sanitize` returns the words of its argument joined by single
      underscores. */
  lemma SanitizeWords(s: Bytes)
    ensures Sanitize(s) == Join(Words(s))
  {
    var u := DropRun(s);
    LeadingRun(s);
    CollapseWords(u);
    if u == [] {
      assert Words(u) == [];
      assert Collapse(s) == Head(s) + [] == Head(s);
      assert Strip(Head(s)) == [] by {
        if Head(s) == "_" {
          assert StripLeft("_") == StripLeft([]);
        }
      }
    } else {
      WordsFront(u);
      WordsAreWords(u);
      JoinEnds(Words(u));
      var h, j, t := Head(s), Join(Words(u)), Tail(u);
      assert Collapse(s) == h + (j + t);
      Regroup3(h, j, t);
      StripFrame(h, j, t);
    }
  }

  /** The underscore `re.sub` puts first when `s` starts with a run of
      characters other than letters and digits. */
  function Head(s: Bytes): Bytes {
    if s != [] && !IsAlnum(s[0]) then "_" else []
  }

  /** The run at the front of `s`, if any, becomes one underscore. */
  lemma LeadingRun(s: Bytes)
    ensures var u := DropRun(s);
            Collapse(s) == Head(s) + Collapse(u) && Words(s) == Words(u)
  {
    if Head(s) == "_" {
      RunStep(s);
    } else {
      assert DropRun(s) == s;
      assert s == [] + s;
    }
  }

  /** Underscores only ever separate two words. */
  lemma {:induction false} JoinClean(ws: seq<Bytes>)
    requires AreWords(ws)
    ensures Clean(Join(ws))
  {
    if |ws| > 1 {
      JoinClean(ws[1..]);
      JoinEnds(ws[1..]);
      var rest := Join(ws[1..]);
      var j := ws[0] + "_" + rest;
      forall i | 0 <= i < |j| - 1 ensures !(j[i] == '_' && j[i + 1] == '_') {
        if i < |ws[0]| - 1 {
        } else if i == |ws[0]| - 1 {
          assert j[i] == ws[0][i];
        } else if i == |ws[0]| {
          assert j[i + 1] == rest[0];
        } else {
          assert j[i] == rest[i - |ws[0]| - 1] && j[i + 1] == rest[i - |ws[0]|];
        }
      }
      forall i | 0 <= i < |j| ensures IsAlnum(j[i]) || j[i] == '_' {
        if i > |ws[0]| {
          assert j[i] == rest[i - |ws[0]| - 1];
        }
      }
    }
  }

  /** What `sanitize` returns holds only letters, digits and underscores, has
      no two underscores in a row, and neither starts nor ends with one. */
  lemma SanitizeClean(s: Bytes)
    ensures Clean(Sanitize(s))
  {
    SanitizeWords(s);
    WordsAreWords(s);
    JoinClean(Words(s));
  }

  /** Splitting joined words gives the words back. */
  lemma {:induction false} WordsOfJoin(ws: seq<Bytes>)
    requires AreWords(ws)
    ensures Words(Join(ws)) == ws
  {
    if ws == [] {
    } else if |ws| == 1 {
      AlnumWords(ws[0]);
    } else {
      var w := ws[0];
      var rest := Join(ws[1..]);
      var j := w + "_" + rest;
      JoinEnds(ws[1..]);
      TakeAll(w, "_" + rest);
      assert j == w + ("_" + rest);
      WordsFront(j);
      assert j[|w|..] == "_" + rest;
      assert DropRun("_" + rest) == rest by {
        assert ("_" + rest)[1..] == rest;
      }
      WordsOfJoin(ws[1..]);
      assert ws == [w] + ws[1..];
    }
  }

  /** The longest word at the front of a word followed by a non-word
      character is that word. */
  lemma {:induction false} TakeAll(w: Bytes, rest: Bytes)
    requires AllAlnum(w) && (rest == [] || !IsAlnum(rest[0]))
    ensures TakeWord(w + rest) == w
  {
    if w != [] {
      assert (w + rest)[1..] == w[1..] + rest;
      TakeAll(w[1..], rest);
      assert [w[0]] + w[1..] == w;
    }
  }

  /** A non-empty run of letters and digits is a single word. */
  lemma AlnumWords(w: Bytes)
    requires w != [] && AllAlnum(w)
    ensures Words(w) == [w]
  {
    TakeAll(w, []);
    assert w + [] == w;
    WordsFront(w);
  }

  /** Clean names are left alone. */
  lemma {:induction false} CleanWords(s: Bytes)
    requires Clean(s)
    ensures Join(Words(s)) == s
    decreases |s|
  {
    if s != [] {
      CleanSplit(s);
      var w := TakeWord(s);
      var rest := s[|w|..];
      WordsFront(s);
      assert s == w + rest;
      if rest == [] {
        assert Words(rest) == [];
        assert [w] + [] == [w];
      } else {
        var tail := rest[1..];
        assert rest == "_" + tail;
        Regroup3(w, "_", tail);
        CleanWords(tail);
        JoinWord(w, tail);
      }
    }
  }

  /** A word, an underscore and text that starts with a word: the words are
      the first word and the words of the rest. */
  lemma JoinWord(w: Bytes, tail: Bytes)
    requires w != [] && AllAlnum(w) && tail != [] && IsAlnum(tail[0])
    ensures Join(Words(w + "_" + tail)) == w + "_" + Join(Words(tail))
  {
    var s := w + "_" + tail;
    var r := "_" + tail;
    assert s == w + r;
    TakeAll(w, r);
    WordsFront(s);
    assert s[|w|..] == r;
    RunStep(r);
    assert r[1..] == tail;
    assert DropRun(r) == tail;
    WordsFront(tail);
    JoinCons(w, Words(tail));
  }

  /** A clean name is a word, then nothing or an underscore and a clean
      name that starts with a letter or digit. */
  lemma CleanSplit(s: Bytes)
    requires Clean(s) && s != []
    ensures var w := TakeWord(s); var rest := s[|w|..];
            && IsAlnum(s[0])
            && (rest != [] ==> && rest[0] == '_' && |rest| > 1 && IsAlnum(rest[1])
                               && Clean(rest[1..]))
  {
    var w := TakeWord(s);
    var rest := s[|w|..];
    if rest != [] {
      assert rest[0] == s[|w|];
      assert |w| + 1 < |s|;
      assert rest[1] == s[|w| + 1];
      var tail := rest[1..];
      forall i | 0 <= i < |tail| - 1 ensures !(tail[i] == '_' && tail[i + 1] == '_') {
        assert tail[i] == s[|w| + 1 + i] && tail[i + 1] == s[|w| + 2 + i];
      }
      forall i | 0 <= i < |tail| ensures IsAlnum(tail[i]) || tail[i] == '_' {
        assert tail[i] == s[|w| + 1 + i];
      }
    }
  }

  /** sanitize is idempotent. */
  lemma SanitizeIdempotent(s: Bytes)
    ensures Sanitize(Sanitize(s)) == Sanitize(s)
  {
    SanitizeClean(s);
    SanitizeWords(Sanitize(s));
    CleanWords(Sanitize(s));
  }

  /** A name made only of letters and digits comes back unchanged. */
  lemma SanitizeAlnum(s: Bytes)
    requires AllAlnum(s)
    ensures Sanitize(s) == s
  {
    SanitizeWords(s);
    if s != [] {
      AlnumWords(s);
    }
  }

  /** Runs of other characters around and between two words reduce to one
      underscore between the words (unit_tests.py:121-131). */
  lemma SanitizeRuns(x: Bytes, a: Bytes, y: Bytes, b: Bytes, z: Bytes)
    requires NoAlnum(x) && NoAlnum(y) && NoAlnum(z) && y != []
    requires a != [] && AllAlnum(a) && b != [] && AllAlnum(b)
    ensures Sanitize(x + a + y + b + z) == a + "_" + b
  {
    var s := x + a + y + b + z;
    var bz := b + z;
    var t := a + y + bz;
    assert s == x + t;
    SanitizeWords(s);
    SkipRun(x, t);
    WordThenRun(a, y, bz);
    WordThenRun(b, z, []);
    assert b + z + [] == bz;
    assert Words([]) == [];
    assert Words(s) == [a] + [b];
    JoinCons(a, [b]);
  }

  /** A word followed by a run of other characters contributes that word. */
  lemma WordThenRun(w: Bytes, y: Bytes, rest: Bytes)
    requires w != [] && AllAlnum(w) && NoAlnum(y) && (y != [] || rest == [])
    requires rest == [] || IsAlnum(rest[0])
    ensures Words(w + y + rest) == [w] + Words(rest)
  {
    var r := y + rest;
    var t := w + r;
    assert t == w + y + rest;
    TakeAll(w, r);
    WordsFront(t);
    assert t[|w|..] == r;
    SkipRun(y, rest);
  }

  /** A run of non-word characters before a word or the end is skipped. */
  lemma {:induction false} SkipRun(x: Bytes, rest: Bytes)
    requires NoAlnum(x) && (rest == [] || IsAlnum(rest[0]))
    ensures DropRun(x + rest) == rest && Words(x + rest) == Words(rest)
  {
    if x != [] {
      assert (x + rest)[1..] == x[1..] + rest;
      SkipRun(x[1..], rest);
    }
  }
}
