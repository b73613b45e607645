// The few string operations the components share. Letters fold in ASCII only.
module Texts {
  import opened Options

  /** What JavaScript's trim takes off: tab to carriage return, the blanks of Unicode, the line separators, the BOM. */
  predicate IsSpace(c: char) {
    || '\U{9}' <= c <= '\U{D}' || c == ' ' || c == '\U{A0}' || c == '\U{1680}' || '\U{2000}' <= c <= '\U{200A}'
    || c == '\U{2028}' || c == '\U{2029}' || c == '\U{202F}' || c == '\U{205F}' || c == '\U{3000}' || c == '\U{FEFF}'
  }

  function TrimStart(s: string): (r: string)
    ensures |r| <= |s| && (r != "" ==> !IsSpace(r[0]))
    ensures exists n :: 0 <= n <= |s| && r == s[n..]
  {
    if s != "" && IsSpace(s[0]) then
      var t := TrimStart(s[1..]);
      var n :| 0 <= n <= |s[1..]| && t == s[1..][n..];
      assert t == s[n + 1..];
      t
    else
      assert s == s[0..];
      s
  }

  function TrimEnd(s: string): (r: string)
    ensures |r| <= |s| && (r != "" ==> !IsSpace(r[|r| - 1]))
    ensures r == s[..|r|]
  {
    if s != "" && IsSpace(s[|s| - 1]) then TrimEnd(s[..|s| - 1]) else s
  }

  function Trim(s: string): (r: string)
    ensures |r| <= |s|
  {
    TrimEnd(TrimStart(s))
  }

  function LowerChar(c: char): char {
    if 'A' <= c <= 'Z' then c - 'A' + 'a' else c
  }

  function Lower(s: string): (r: string)
    ensures |r| == |s| && forall i :: 0 <= i < |s| ==> r[i] == LowerChar(s[i])
  {
    seq(|s|, i requires 0 <= i < |s| => LowerChar(s[i]))
  }

  /** JavaScript's startsWith(t, i). */
  predicate At(s: string, i: nat, t: string) {
    i + |t| <= |s| && s[i..i + |t|] == t
  }

  /** The strings of a list joined by a separator. */
  function Join(parts: seq<string>, sep: string): string {
    if parts == [] then ""
    else if |parts| == 1 then parts[0]
    else parts[0] + sep + Join(parts[1..], sep)
  }

  lemma AtMeans(s: string, i: nat, t: string)
    ensures At(s, i, t) <==> i + |t| <= |s| && forall j :: 0 <= j < |t| ==> s[i + j] == t[j]
  {
    if i + |t| <= |s| {
      var w := s[i..i + |t|];
      assert forall j :: 0 <= j < |t| ==> w[j] == s[i + j];
    }
  }

  /** indexOf from position i. */
  function FirstAt(s: string, t: string, i: nat): (r: Option<nat>)
    ensures r.Some? ==> i <= r.value && At(s, r.value, t) && forall k: nat :: i <= k < r.value ==> !At(s, k, t)
    ensures r.None? ==> forall k: nat :: i <= k ==> !At(s, k, t)
    decreases |s| - i
  {
    if i + |t| > |s| then None
    else if At(s, i, t) then Some(i)
    else if i == |s| then None
    else FirstAt(s, t, i + 1)
  }

  // ---- splitting on one character ----

  /** s.split(sep). */
  function SplitChar(s: string, sep: char): (r: seq<string>)
    ensures r != []
  {
    if s == "" then [""]
    else if s[0] == sep then [""] + SplitChar(s[1..], sep)
    else
      var rest := SplitChar(s[1..], sep);
      [[s[0]] + rest[0]] + rest[1..]
  }

  lemma {:induction false} SplitFirst(token: string, rest: string, sep: char)
    requires sep !in token && (rest == "" || rest[0] == sep)
    ensures SplitChar(token + rest, sep) == [token] + SplitChar(rest, sep)[1..]
  {
    if token == "" {
      assert token + rest == rest;
      if rest != "" {
        assert SplitChar(rest, sep) == [""] + SplitChar(rest[1..], sep);
      }
    } else {
      assert (token + rest)[1..] == token[1..] + rest;
      SplitFirst(token[1..], rest, sep);
      assert token == [token[0]] + token[1..];
    }
  }

  /** Splitting a joined list gives the list back, when no entry holds the separator. */
  lemma {:induction false} JoinSplits(parts: seq<string>, sep: char)
    requires parts != [] && forall i :: 0 <= i < |parts| ==> sep !in parts[i]
    ensures SplitChar(Join(parts, [sep]), sep) == parts
  {
    if |parts| == 1 {
      SplitFirst(parts[0], "", sep);
      assert parts[0] + "" == parts[0];
      assert parts == [parts[0]];
    } else {
      var rest := Join(parts[1..], [sep]);
      JoinSplits(parts[1..], sep);
      SplitFirst(parts[0], [sep] + rest, sep);
      assert ([sep] + rest)[1..] == rest;
      assert parts[0] + [sep] + rest == parts[0] + ([sep] + rest);
      assert parts == [parts[0]] + parts[1..];
    }
  }
}
