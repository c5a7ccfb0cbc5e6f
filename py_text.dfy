/** The few Python string operations the bots rely on, stated over `seq<char>`. */
module PyText {

  /** `s.split('/')[-1]`: what follows the last `/` of `s`, or all of `s` when it has none. */
  function LastSegment(s: string): string
  {
    if s == [] || s[|s| - 1] == '/' then []
    else LastSegment(s[..|s| - 1]) + [s[|s| - 1]]
  }

  /** The last segment holds no `/`. */
  lemma {:induction false} LastSegmentNoSlash(s: string)
    ensures '/' !in LastSegment(s)
  {
    if s != [] && s[|s| - 1] != '/' {
      LastSegmentNoSlash(s[..|s| - 1]);
    }
  }

  /** The last segment is a suffix of `s`: all of `s`, or what follows a `/`. */
  lemma {:induction false} LastSegmentSuffix(s: string)
    ensures |LastSegment(s)| <= |s| && s[|s| - |LastSegment(s)|..] == LastSegment(s)
    ensures |LastSegment(s)| < |s| ==> s[|s| - |LastSegment(s)| - 1] == '/'
  {
    if s != [] && s[|s| - 1] != '/' {
      var init, c := s[..|s| - 1], s[|s| - 1];
      LastSegmentSuffix(init);
      var r0 := LastSegment(init);
      var m := |init| - |r0|;
      assert LastSegment(s) == r0 + [c];
      assert s == init + [c];
      assert s[m..] == init[m..] + [c];
      if m > 0 {
        assert s[m - 1] == init[m - 1];
      }
    }
  }

  /** The characters `repr` writes for one character inside single quotes. */
  function EscapeChar(c: char): (r: string)
    ensures |r| > 0
  {
    if c == '\\' then "\\\\"
    else if c == '\'' then "\\'"
    else if c == '\n' then "\\n"
    else if c == '\r' then "\\r"
    else if c == '\t' then "\\t"
    else [c]
  }

  function Escape(s: string): string
  {
    if s == [] then "" else EscapeChar(s[0]) + Escape(s[1..])
  }

  /** `repr(s)` for a string: the escaped text between single quotes. */
  function StrRepr(s: string): (r: string)
    ensures |r| >= 2 && r[0] == '\'' && r[|r| - 1] == '\''
  {
    "'" + Escape(s) + "'"
  }

  function JoinReprs(items: seq<string>): string
  {
    if items == [] then ""
    else if |items| == 1 then StrRepr(items[0])
    else StrRepr(items[0]) + ", " + JoinReprs(items[1..])
  }

  /** `str(items)` for a list of strings: `['a', 'b']`. */
  function ListRepr(items: seq<string>): (r: string)
    ensures |r| >= 2 && r[0] == '[' && r[|r| - 1] == ']'
  {
    "[" + JoinReprs(items) + "]"
  }

  /** Escaping neither creates nor removes a `*`. */
  lemma {:induction false} StarInEscape(s: string)
    ensures '*' in Escape(s) <==> '*' in s
  {
    if s != [] {
      StarInEscape(s[1..]);
      assert s == [s[0]] + s[1..];
      assert Escape(s) == EscapeChar(s[0]) + Escape(s[1..]);
    }
  }

  /** A `*` occurs in the text of a list of strings exactly when it occurs in one of its elements. */
  lemma {:induction false} StarInListRepr(items: seq<string>)
    ensures '*' in ListRepr(items) <==> exists i :: 0 <= i < |items| && '*' in items[i]
  {
    StarInJoinReprs(items);
    assert ListRepr(items) == "[" + JoinReprs(items) + "]";
  }

  lemma {:induction false} StarInJoinReprs(items: seq<string>)
    ensures '*' in JoinReprs(items) <==> exists i :: 0 <= i < |items| && '*' in items[i]
  {
    if items == [] {
    } else {
      StarInEscape(items[0]);
      assert StrRepr(items[0]) == "'" + Escape(items[0]) + "'";
      if |items| > 1 {
        StarInJoinReprs(items[1..]);
        assert JoinReprs(items) == StrRepr(items[0]) + ", " + JoinReprs(items[1..]);
        if '*' in JoinReprs(items[1..]) {
          var i :| 0 <= i < |items[1..]| && '*' in items[1..][i];
          assert '*' in items[i + 1];
        }
        if exists i :: 0 <= i < |items| && '*' in items[i] {
          var i :| 0 <= i < |items| && '*' in items[i];
          if i > 0 {
            assert items[1..][i - 1] == items[i];
          }
        }
      }
    }
  }
}
