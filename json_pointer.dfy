/**
 * The escaping of a property name into one JSON-pointer reference token
 * (section 3 of RFC 6901), as the reconciler writes it: two successive
 * Python `str.replace` calls, `~` -> `~0` and then `/` -> `~1`, and the
 * decoding of section 4 of RFC 6901 (`~1` -> `/`, then `~0` -> `~`).
 */
module JsonPointer {

  /** Python `s.replace(c, rep)` for a one-character pattern `c`. */
  function ReplaceChar(s: string, c: char, rep: string): string
  {
    if s == [] then []
    else (if s[0] == c then rep else [s[0]]) + ReplaceChar(s[1..], c, rep)
  }

  /**
   * Python `s.replace(pat, rep)` for a two-character pattern `pat`:
   * occurrences are found left to right and do not overlap.
   */
  function ReplacePair(s: string, pat: string, rep: string): string
    requires |pat| == 2
  {
    if |s| < 2 then s
    else if s[..2] == pat then rep + ReplacePair(s[2..], pat, rep)
    else [s[0]] + ReplacePair(s[1..], pat, rep)
  }

  /** `prop.replace('~', '~0').replace('/', '~1')` */
  function Escape(key: string): string
  {
    ReplaceChar(ReplaceChar(key, '~', "~0"), '/', "~1")
  }

  /** Decoding of a reference token: first `~1` -> `/`, then `~0` -> `~`. */
  function Unescape(token: string): string
  {
    ReplacePair(ReplacePair(token, "~1", "/"), "~0", "~")
  }

  /** The escape of one character, in a single pass. */
  function EscapeChar(c: char): string
  {
    if c == '~' then "~0" else if c == '/' then "~1" else [c]
  }

  /** The single-pass escape: every character replaced by its escape. */
  function EscapeEach(key: string): string
  {
    if key == [] then [] else EscapeChar(key[0]) + EscapeEach(key[1..])
  }

  /** A reference token as section 3 of RFC 6901 allows it. */
  ghost predicate WellEscaped(t: string)
  {
    && (forall i :: 0 <= i < |t| ==> t[i] != '/')
    && (forall i :: 0 <= i < |t| && t[i] == '~' ==>
          i + 1 < |t| && (t[i + 1] == '0' || t[i + 1] == '1'))
  }

  lemma {:induction false} ReplaceCharAppend(a: string, b: string, c: char, rep: string)
    ensures ReplaceChar(a + b, c, rep) == ReplaceChar(a, c, rep) + ReplaceChar(b, c, rep)
  {
    if a == [] {
      assert a + b == b;
    } else {
      assert (a + b)[0] == a[0];
      assert (a + b)[1..] == a[1..] + b;
      ReplaceCharAppend(a[1..], b, c, rep);
    }
  }

  lemma ReplaceCharAbsent(s: string, c: char, rep: string)
    requires forall i :: 0 <= i < |s| ==> s[i] != c
    ensures ReplaceChar(s, c, rep) == s
  {
  }

  /** A key without `~` and `/` is its own escape. */
  lemma EscapePlain(key: string)
    requires forall i :: 0 <= i < |key| ==> key[i] != '~' && key[i] != '/'
    ensures Escape(key) == key
  {
    ReplaceCharAbsent(key, '~', "~0");
    ReplaceCharAbsent(key, '/', "~1");
  }

  /** The two chained replacements are the single-pass escape. */
  lemma {:induction false} EscapeIsEscapeEach(key: string)
    ensures Escape(key) == EscapeEach(key)
  {
    if key != [] {
      var inner := ReplaceChar(key, '~', "~0");
      var head := if key[0] == '~' then "~0" else [key[0]];
      assert inner == head + ReplaceChar(key[1..], '~', "~0");
      ReplaceCharAppend(head, ReplaceChar(key[1..], '~', "~0"), '/', "~1");
      if key[0] == '~' {
        ReplaceCharAbsent(head, '/', "~1");
      } else {
        assert ReplaceChar(head, '/', "~1") == EscapeChar(key[0]);
      }
      EscapeIsEscapeEach(key[1..]);
    }
  }

  lemma {:induction false} EscapeEachWellEscaped(key: string)
    ensures WellEscaped(EscapeEach(key))
  {
    if key != [] {
      EscapeEachWellEscaped(key[1..]);
      var h, t := EscapeChar(key[0]), EscapeEach(key[1..]);
      assert EscapeEach(key) == h + t;
      forall i | 0 <= i < |h + t| && (h + t)[i] == '~'
        ensures i + 1 < |h + t| && ((h + t)[i + 1] == '0' || (h + t)[i + 1] == '1')
      {
        if i >= |h| {
          assert t[i - |h|] == '~';
        }
      }
      forall i | 0 <= i < |h + t| ensures (h + t)[i] != '/' {
        if i >= |h| {
          assert (h + t)[i] == t[i - |h|];
        }
      }
    }
  }

  /**
   * An escaped key is a valid reference token: it holds no `/` and every
   * `~` in it starts `~0` or `~1`.
   */
  lemma EscapeWellEscaped(key: string)
    ensures WellEscaped(Escape(key))
  {
    EscapeIsEscapeEach(key);
    EscapeEachWellEscaped(key);
  }

  /** Decoding step one undoes the `/` half of the escape. */
  lemma {:induction false} FirstStepUndoesSlash(key: string)
    ensures ReplacePair(EscapeEach(key), "~1", "/") == ReplaceChar(key, '~', "~0")
  {
    if key != [] {
      var rest := EscapeEach(key[1..]);
      FirstStepUndoesSlash(key[1..]);
      var s := EscapeChar(key[0]) + rest;
      assert EscapeEach(key) == s;
      if key[0] == '/' {
        assert s[..2] == "~1" && s[2..] == rest;
      } else if key[0] == '~' {
        assert s[..2] == "~0" && s[1..] == "0" + rest;
        var s1 := "0" + rest;
        if |s1| >= 2 {
          assert s1[..2] != "~1" && s1[1..] == rest;
        } else {
          assert rest == [];
        }
      } else {
        if |s| >= 2 {
          assert s[..2] != "~1" && s[1..] == rest;
        } else {
          assert rest == [];
        }
      }
    }
  }

  /** Decoding step two undoes the `~` half of the escape. */
  lemma {:induction false} SecondStepUndoesTilde(key: string)
    ensures ReplacePair(ReplaceChar(key, '~', "~0"), "~0", "~") == key
  {
    if key != [] {
      var rest := ReplaceChar(key[1..], '~', "~0");
      SecondStepUndoesTilde(key[1..]);
      var s := (if key[0] == '~' then "~0" else [key[0]]) + rest;
      assert ReplaceChar(key, '~', "~0") == s;
      if key[0] == '~' {
        assert s[..2] == "~0" && s[2..] == rest;
      } else if |s| >= 2 {
        assert s[..2][0] == s[0] == key[0];
        assert s[..2] != "~0" && s[1..] == rest;
      } else {
        assert rest == [];
      }
    }
  }

  /** Decoding per section 4 of RFC 6901 recovers the escaped key. */
  lemma UnescapeEscape(key: string)
    ensures Unescape(Escape(key)) == key
  {
    EscapeIsEscapeEach(key);
    FirstStepUndoesSlash(key);
    SecondStepUndoesTilde(key);
  }

  /** Two different keys never escape to the same token. */
  lemma EscapeInjective(a: string, b: string)
    requires Escape(a) == Escape(b)
    ensures a == b
  {
    UnescapeEscape(a);
    UnescapeEscape(b);
  }
}
