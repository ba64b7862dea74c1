/**
 * The JavaScript string built-ins the core relies on: `String.prototype.trim`,
 * `String.prototype.split` with a one-character separator, and `Array.prototype.pop`
 * on the array that `split` returns.
 */
module JsStrings {

  /** The characters `trim` removes: ECMAScript WhiteSpace and LineTerminator code points. */
  predicate IsWhitespace(c: char) {
    c == '\t' || c == '\U{B}' || c == '\U{C}' || c == ' ' || c == '\U{A0}' || c == '\U{FEFF}'
    || c == '\n' || c == '\r' || c == '\U{2028}' || c == '\U{2029}'
    || c == '\U{1680}' || ('\U{2000}' <= c <= '\U{200A}')
    || c == '\U{202F}' || c == '\U{205F}' || c == '\U{3000}'
  }

  /** `s` with its leading whitespace removed. */
  function TrimStart(s: string): string {
    if s != [] && IsWhitespace(s[0]) then TrimStart(s[1..]) else s
  }

  /** `s` with its trailing whitespace removed. */
  function TrimEnd(s: string): string {
    if s != [] && IsWhitespace(s[|s| - 1]) then TrimEnd(s[..|s| - 1]) else s
  }

  /** `String.prototype.trim`: whitespace removed from both ends. */
  function Trim(s: string): string {
    TrimEnd(TrimStart(s))
  }

  /** `TrimStart` drops exactly the leading run of whitespace: what it keeps ends `s` and does not start with whitespace. */
  lemma {:induction false} TrimStartDropsLeadingWhitespace(s: string)
    ensures var r := TrimStart(s);
      && |r| <= |s| && r == s[|s| - |r|..]
      && (forall k :: 0 <= k < |s| - |r| ==> IsWhitespace(s[k]))
      && (r == [] || !IsWhitespace(r[0]))
  {
    if s != [] && IsWhitespace(s[0]) {
      var t := s[1..];
      TrimStartDropsLeadingWhitespace(t);
      var r := TrimStart(t);
      assert TrimStart(s) == r;
      assert s[|s| - |r|..] == t[|t| - |r|..];
      forall k | 0 <= k < |s| - |r|
        ensures IsWhitespace(s[k])
      {
        if k > 0 {
          assert s[k] == t[k - 1];
        }
      }
    }
  }

  /** `TrimEnd` drops exactly the trailing run of whitespace: what it keeps starts `s` and does not end with whitespace. */
  lemma {:induction false} TrimEndDropsTrailingWhitespace(s: string)
    ensures var r := TrimEnd(s);
      && |r| <= |s| && r == s[..|r|]
      && (forall k :: |r| <= k < |s| ==> IsWhitespace(s[k]))
      && (r == [] || !IsWhitespace(r[|r| - 1]))
  {
    if s != [] && IsWhitespace(s[|s| - 1]) {
      var t := s[..|s| - 1];
      TrimEndDropsTrailingWhitespace(t);
      var r := TrimEnd(t);
      assert TrimEnd(s) == r;
      assert s[..|r|] == t[..|r|];
      forall k | |r| <= k < |s|
        ensures IsWhitespace(s[k])
      {
        if k < |s| - 1 {
          assert s[k] == t[k];
        }
      }
    }
  }

  /** A string trims to "" (a falsy value) exactly when every character of it is whitespace. */
  lemma TrimEmptyIffAllWhitespace(s: string)
    ensures Trim(s) == [] <==> forall k :: 0 <= k < |s| ==> IsWhitespace(s[k])
  {
    var t := TrimStart(s);
    TrimStartDropsLeadingWhitespace(s);
    TrimEndDropsTrailingWhitespace(t);
    if Trim(s) == [] {
      assert t == [];
    } else {
      var u := Trim(s);
      assert u[0] == t[0];
      assert t[0] == s[|s| - |t|];
    }
  }

  /** `s.split(sep)` for a one-character separator: the pieces between separators, in order. */
  function Split(s: string, sep: char): (r: seq<string>)
    ensures |r| >= 1
  {
    if s == [] then [""]
    else
      var rest := Split(s[1..], sep);
      if s[0] == sep then [""] + rest else [[s[0]] + rest[0]] + rest[1..]
  }

  /**
   * No piece holds the separator, so together with `JoinSplit` the pieces are exactly the
   * runs of `s` between separators.
   */
  lemma {:induction false} SplitPiecesLackSeparator(s: string, sep: char)
    ensures forall k :: 0 <= k < |Split(s, sep)| ==> sep !in Split(s, sep)[k]
  {
    if s != [] {
      var rest := Split(s[1..], sep);
      SplitPiecesLackSeparator(s[1..], sep);
      var r := Split(s, sep);
      if s[0] == sep {
        forall k | 0 <= k < |r| ensures sep !in r[k] {
          if k > 0 {
            assert r[k] == rest[k - 1];
          }
        }
      } else {
        forall k | 0 <= k < |r| ensures sep !in r[k] {
          if k == 0 {
            assert r[0] == [s[0]] + rest[0];
          } else {
            assert r[k] == rest[k];
          }
        }
      }
    }
  }

  /** `parts.join(sep)`, the inverse of `Split`. */
  function Join(parts: seq<string>, sep: char): string
    requires |parts| >= 1
  {
    if |parts| == 1 then parts[0] else parts[0] + [sep] + Join(parts[1..], sep)
  }

  /** Splitting loses nothing: joining the pieces with the separator gives back the string. */
  lemma {:induction false} JoinSplit(s: string, sep: char)
    ensures Join(Split(s, sep), sep) == s
  {
    if s != [] {
      var rest := Split(s[1..], sep);
      JoinSplit(s[1..], sep);
      if s[0] != sep && |rest| > 1 {
        assert Split(s, sep)[1..] == rest[1..];
      }
    }
  }

  /** `Array.prototype.pop` on a non-empty array: its last element. */
  function Pop(parts: seq<string>): string
    requires |parts| >= 1
  {
    parts[|parts| - 1]
  }

  /**
   * The last piece of `s.split(sep)` is the text after the last separator: it holds no
   * separator, it ends `s`, a separator stands right before it when `s` has one, and it is
   * the whole of `s` when `s` has none.
   */
  lemma {:induction false} LastPiece(s: string, sep: char)
    ensures var e := Pop(Split(s, sep));
      && sep !in e
      && |e| <= |s| && s[|s| - |e|..] == e
      && (sep in s ==> |e| < |s| && s[|s| - |e| - 1] == sep)
      && (sep !in s ==> e == s)
      && (|Split(s, sep)| == 1 <==> sep !in s)
  {
    if s != [] {
      LastPiece(s[1..], sep);
      var rest := Split(s[1..], sep);
      var e := Pop(Split(s, sep));
      assert s == [s[0]] + s[1..];
      if s[0] == sep || |rest| > 1 {
        assert e == Pop(rest);
      } else {
        assert rest[0] == Pop(rest);
        assert e == [s[0]] + rest[0] == [s[0]] + s[1..];
      }
    }
  }
}
