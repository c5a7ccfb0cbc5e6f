/** Small definitions shared by the bots' models. */
module Common {

  /** A value that may be absent, as a Python dictionary key that may be missing. */
  datatype Option<+T> = None | Some(value: T)

  /** `p` is a prefix of `s`, as Python's `s.startswith(p)`. */
  predicate StartsWith(s: string, p: string)
  {
    |p| <= |s| && s[..|p|] == p
  }

  const ErrorPrefix := "Unexpected error: "

  /** The bots' common failure line, `"Unexpected error: %s \n" % detail`. */
  function UnexpectedError(detail: string): string
  {
    ErrorPrefix + detail + " \n"
  }

  /** The failure line opens with the fixed prefix, and the detail can be read back from between its fixed parts. */
  lemma UnexpectedErrorParts(detail: string)
    ensures var line := UnexpectedError(detail);
            |line| == |ErrorPrefix| + |detail| + 2 && StartsWith(line, ErrorPrefix) &&
            line[|ErrorPrefix|..|line| - 2] == detail && line[|line| - 2..] == " \n"
  {
    var line := UnexpectedError(detail);
    assert line[..|ErrorPrefix|] == ErrorPrefix;
    assert line[|ErrorPrefix|..|line| - 2] == detail;
  }
}
