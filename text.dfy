/**
  The parts of Rust's `str` API the crate relies on, stated over `seq<char>`:
  `find`, `rfind` of a char, `split` on a char, `join`, and `split_whitespace`.
  Byte offsets and character offsets coincide because every delimiter and
  every first character that the crate indexes is ASCII.
*/
module Text {
  import opened Wrappers

  /** `t` occurs in `s` starting at index `i`. */
  predicate OccursAt(s: string, t: string, i: nat)
  {
    i + |t| <= |s| && s[i..i + |t|] == t
  }

  /** `t` is a substring of `s`. */
  ghost predicate Contains(s: string, t: string)
  {
    exists i: nat :: OccursAt(s, t, i)
  }

  /** `str::find` with a string pattern, searching from index `i` on. */
  function FindFrom(s: string, t: string, i: nat): (r: Option<nat>)
    decreases |s| - i
    ensures r.Some? ==> i <= r.value && OccursAt(s, t, r.value)
    ensures r.Some? ==> forall j: nat :: i <= j < r.value ==> !OccursAt(s, t, j)
    ensures r.None? ==> forall j: nat :: i <= j ==> !OccursAt(s, t, j)
  {
    if i + |t| > |s| then None
    else if OccursAt(s, t, i) then Some(i)
    else FindFrom(s, t, i + 1)
  }

  /** `str::find`: the index of the first occurrence of `t` in `s`. */
  function Find(s: string, t: string): (r: Option<nat>)
    ensures r.Some? ==> OccursAt(s, t, r.value)
    ensures r.Some? ==> forall j: nat :: j < r.value ==> !OccursAt(s, t, j)
    ensures r.None? <==> !Contains(s, t)
  {
    FindFrom(s, t, 0)
  }

  /** `str::rfind` with a char pattern: the index of the last `c` in `s`. */
  function RFind(s: string, c: char): (r: Option<nat>)
    ensures r.Some? ==> r.value < |s| && s[r.value] == c && c !in s[r.value + 1..]
    ensures r.None? <==> c !in s
  {
    if s == [] then None
    else if s[|s| - 1] == c then Some(|s| - 1)
    else
      var r := RFind(s[..|s| - 1], c);
      assert s == s[..|s| - 1] + [s[|s| - 1]];
      if r.Some? then
        assert s[r.value + 1..] == s[..|s| - 1][r.value + 1..] + [s[|s| - 1]];
        r
      else r
  }

  /** `str::split` with a char pattern; like Rust, the empty string gives one empty piece. */
  function Split(s: string, d: char): (r: seq<string>)
    ensures |r| >= 1
    ensures forall k :: 0 <= k < |r| ==> d !in r[k]
  {
    if s == [] then [""]
    else
      var rest := Split(s[1..], d);
      if s[0] == d then [""] + rest else [[s[0]] + rest[0]] + rest[1..]
  }

  /** `[String]::join`. */
  function Join(parts: seq<string>, sep: string): string
  {
    if |parts| == 0 then ""
    else if |parts| == 1 then parts[0]
    else parts[0] + sep + Join(parts[1..], sep)
  }

  /** Joining the pieces of a split with the delimiter restores the text. */
  lemma {:induction false} JoinSplit(s: string, d: char)
    ensures Join(Split(s, d), [d]) == s
  {
    if s != [] {
      var rest := Split(s[1..], d);
      JoinSplit(s[1..], d);
      if s[0] == d {
        assert Split(s, d) == [""] + rest;
        assert ([""] + rest)[1..] == rest;
      } else if |rest| == 1 {
        assert Split(s, d) == [[s[0]] + rest[0]];
      } else {
        assert Split(s, d) == [[s[0]] + rest[0]] + rest[1..];
        assert ([[s[0]] + rest[0]] + rest[1..])[1..] == rest[1..];
        assert Join(rest, [d]) == rest[0] + [d] + Join(rest[1..], [d]);
      }
    }
  }

  /** A text with no delimiter splits into itself. */
  lemma {:induction false} SplitNoDelimiter(p: string, d: char)
    requires d !in p
    ensures Split(p, d) == [p]
  {
    if p != [] {
      SplitNoDelimiter(p[1..], d);
      assert [p[0]] + p[1..] == p;
    }
  }

  /** A split gives more than one piece exactly when the delimiter occurs. */
  lemma {:induction false} SplitPieces(s: string, d: char)
    ensures |Split(s, d)| >= 2 <==> d in s
  {
    if s != [] {
      SplitPieces(s[1..], d);
      assert s == [s[0]] + s[1..];
    }
  }

  /** Splitting `a`, the delimiter, then `b` gives the pieces of `a` followed by the pieces of `b`. */
  lemma {:induction false} SplitConcat(a: string, d: char, b: string)
    ensures Split(a + [d] + b, d) == Split(a, d) + Split(b, d)
  {
    if a == [] {
      assert ([d] + b)[1..] == b;
    } else {
      SplitConcat(a[1..], d, b);
      SplitConcatStep(a[0], a[1..], d, b);
      assert a == [a[0]] + a[1..];
    }
  }

  /** The inductive step of `SplitConcat`: one more character in front. */
  lemma SplitConcatStep(c: char, t: string, d: char, b: string)
    requires Split(t + [d] + b, d) == Split(t, d) + Split(b, d)
    ensures Split([c] + t + [d] + b, d) == Split([c] + t, d) + Split(b, d)
  {
    var x, p, q := t + [d] + b, Split(t, d), Split(b, d);
    assert [c] + t + [d] + b == [c] + x;
    SplitCons(c, x, d);
    SplitCons(c, t, d);
    if c == d {
      Associative([""], p, q);
    } else {
      TailOfAppend(p, q);
      Associative([[c] + p[0]], p[1..], q);
    }
  }

  /** Concatenation is associative. */
  lemma Associative<T>(a: seq<T>, b: seq<T>, c: seq<T>)
    ensures a + (b + c) == a + b + c
  {
  }

  /** The head and tail of a concatenation with a non-empty front. */
  lemma TailOfAppend<T>(p: seq<T>, q: seq<T>)
    requires |p| >= 1
    ensures (p + q)[0] == p[0] && (p + q)[1..] == p[1..] + q
  {
  }

  /** Splitting a text one character at a time. */
  lemma SplitCons(c: char, t: string, d: char)
    ensures Split([c] + t, d)
         == if c == d then [""] + Split(t, d) else [[c] + Split(t, d)[0]] + Split(t, d)[1..]
  {
    assert ([c] + t)[1..] == t;
  }

  /** Splitting a join of delimiter-free pieces gives the pieces back. */
  lemma {:induction false} SplitJoin(parts: seq<string>, d: char)
    requires |parts| >= 1
    requires forall k :: 0 <= k < |parts| ==> d !in parts[k]
    ensures Split(Join(parts, [d]), d) == parts
  {
    if |parts| == 1 {
      SplitNoDelimiter(parts[0], d);
    } else {
      SplitJoin(parts[1..], d);
      SplitNoDelimiter(parts[0], d);
      SplitConcat(parts[0], d, Join(parts[1..], [d]));
      assert [parts[0]] + parts[1..] == parts;
    }
  }

  /** Joining two non-empty lists: the separator appears once between them. */
  lemma {:induction false} JoinAppend(a: seq<string>, b: seq<string>, sep: string)
    requires |a| >= 1 && |b| >= 1
    ensures Join(a + b, sep) == Join(a, sep) + sep + Join(b, sep)
  {
    if |a| == 1 {
      assert (a + b)[1..] == b;
    } else {
      JoinAppend(a[1..], b, sep);
      assert (a + b)[1..] == a[1..] + b;
    }
  }

  /** Unicode `White_Space`, the set `char::is_whitespace` tests. */
  predicate IsWhitespace(c: char)
  {
    c == ' ' || c == '\t' || c == '\n' || c == '\U{000B}' || c == '\U{000C}' || c == '\r'
    || c == '\U{0085}' || c == '\U{00A0}' || c == '\U{1680}' || ('\U{2000}' <= c <= '\U{200A}')
    || c == '\U{2028}' || c == '\U{2029}' || c == '\U{202F}' || c == '\U{205F}' || c == '\U{3000}'
  }

  /** A word of `split_whitespace`: non-empty and free of whitespace. */
  predicate IsWord(w: string)
  {
    w != [] && forall i :: 0 <= i < |w| ==> !IsWhitespace(w[i])
  }

  /** `str::split_whitespace`: the maximal whitespace-free runs, in order. */
  function Words(s: string): (r: seq<string>)
    ensures forall k :: 0 <= k < |r| ==> IsWord(r[k])
    ensures |s| > 0 && !IsWhitespace(s[0]) ==> |r| > 0 && |r[0]| > 0 && r[0][0] == s[0]
  {
    if s == [] then []
    else
      var rest := Words(s[1..]);
      if IsWhitespace(s[0]) then rest
      else if |s| > 1 && !IsWhitespace(s[1]) then [[s[0]] + rest[0]] + rest[1..]
      else [[s[0]]] + rest
  }

  /** A word followed by whitespace or by nothing splits off as one word. */
  lemma {:induction false} WordsAfterWord(w: string, s: string)
    requires IsWord(w)
    requires s == [] || IsWhitespace(s[0])
    ensures Words(w + s) == [w] + Words(s)
  {
    if |w| == 1 {
      assert (w + s)[1..] == s;
      assert w == [w[0]];
    } else {
      WordsAfterWord(w[1..], s);
      assert (w + s)[1..] == w[1..] + s;
      assert [w[0]] + w[1..] == w;
    }
  }

  /** A leading space is skipped. */
  lemma WordsAfterSpace(t: string)
    ensures Words(" " + t) == Words(t)
  {
    assert (" " + t)[1..] == t;
  }

  /** Words joined by single spaces split back into the same words. */
  lemma {:induction false} WordsJoin(ws: seq<string>)
    requires forall k :: 0 <= k < |ws| ==> IsWord(ws[k])
    ensures Words(Join(ws, " ")) == ws
  {
    if |ws| == 1 {
      WordsAfterWord(ws[0], "");
      assert ws[0] + "" == ws[0];
    } else if |ws| > 1 {
      var tail := Join(ws[1..], " ");
      WordsJoin(ws[1..]);
      assert Join(ws, " ") == ws[0] + (" " + tail);
      WordsAfterWord(ws[0], " " + tail);
      WordsAfterSpace(tail);
      assert [ws[0]] + ws[1..] == ws;
    }
  }

  /** Only ASCII spaces as whitespace, each between two non-whitespace characters. */
  predicate SingleSpaced(r: string)
  {
    forall i :: 0 <= i < |r| && IsWhitespace(r[i]) ==>
      r[i] == ' ' && 0 < i < |r| - 1 && !IsWhitespace(r[i - 1]) && !IsWhitespace(r[i + 1])
  }

  /** Words joined by single spaces form a single-spaced text that starts and ends with a word character. */
  lemma {:induction false} JoinWordsSingleSpaced(ws: seq<string>)
    requires forall k :: 0 <= k < |ws| ==> IsWord(ws[k])
    ensures SingleSpaced(Join(ws, " "))
    ensures |ws| > 0 ==> |Join(ws, " ")| > 0
    ensures |ws| > 0 ==> !IsWhitespace(Join(ws, " ")[0]) && !IsWhitespace(Join(ws, " ")[|Join(ws, " ")| - 1])
  {
    if |ws| > 1 {
      JoinWordsSingleSpaced(ws[1..]);
      var w, t := ws[0], Join(ws[1..], " ");
      var r := w + " " + t;
      assert Join(ws, " ") == r;
      assert forall i :: 0 <= i < |w| ==> r[i] == w[i];
      forall i | 0 <= i < |r| && IsWhitespace(r[i])
        ensures r[i] == ' ' && 0 < i < |r| - 1 && !IsWhitespace(r[i - 1]) && !IsWhitespace(r[i + 1])
      {
        if i > |w| {
          assert r[i] == t[i - |w| - 1];
          if i - |w| - 1 > 0 {
            assert r[i - 1] == t[i - |w| - 2];
          }
          assert r[i + 1] == t[i - |w|];
        }
      }
    }
  }
}
