/** The string functions the codecs rely on. */
module Text {

  predicate HasPrefix(s: string, prefix: string) {
    |prefix| <= |s| && s[..|prefix|] == prefix
  }

  /** strings.Split on one character: always at least one part. */
  function Split(s: string, sep: char): (parts: seq<string>)
    ensures |parts| >= 1
  {
    if s == "" then [""]
    else
      var rest := Split(s[1..], sep);
      if s[0] == sep then [""] + rest else [[s[0]] + rest[0]] + rest[1..]
  }

  function Join(parts: seq<string>, sep: char): string
    requires |parts| >= 1
  {
    if |parts| == 1 then parts[0] else parts[0] + [sep] + Join(parts[1..], sep)
  }

  /** No part contains the separator. */
  predicate Parts(parts: seq<string>, sep: char) {
    |parts| >= 1 && forall i | 0 <= i < |parts| :: sep !in parts[i]
  }

  /** Split inverts Join on parts without the separator ... */
  lemma {:induction false} SplitJoin(parts: seq<string>, sep: char)
    requires Parts(parts, sep)
    ensures Split(Join(parts, sep), sep) == parts
    decreases |parts|, |parts[0]|
  {
    var s := Join(parts, sep);
    if parts[0] == "" {
      if |parts| > 1 {
        SplitJoin(parts[1..], sep);
        assert s[1..] == Join(parts[1..], sep);
      }
    } else {
      var shorter := [parts[0][1..]] + parts[1..];
      SplitJoin(shorter, sep);
      assert s[1..] == Join(shorter, sep) && s[0] == parts[0][0];
      assert parts[0] == [s[0]] + shorter[0] && parts[1..] == shorter[1..];
    }
  }

  /** ... and Join inverts Split everywhere, so that every string has exactly one decomposition. */
  lemma {:induction false} JoinSplit(s: string, sep: char)
    ensures Parts(Split(s, sep), sep) && Join(Split(s, sep), sep) == s
  {
    if s != "" {
      JoinSplit(s[1..], sep);
      var rest := Split(s[1..], sep);
      if s[0] == sep {
        assert ([""] + rest)[1..] == rest;
      } else {
        assert ([[s[0]] + rest[0]] + rest[1..])[1..] == rest[1..];
      }
      assert s == [s[0]] + s[1..];
    }
  }
}
