// JSON pointer tokens (RFC 6901, sections 3 and 4) as the patches write and read them.
module JsonPointer {
  import opened Texts

  // ---- the replacements, as the two sides perform them ----

  /** s.replace(/c/g, sub) for one character. */
  function ReplaceChar(s: string, c: char, sub: string): string {
    if s == "" then "" else (if s[0] == c then sub else [s[0]]) + ReplaceChar(s[1..], c, sub)
  }

  /** s.replace(/ab/g, sub) for two characters: left to right, no overlap. */
  function ReplacePair(s: string, a: char, b: char, sub: string): string {
    if s == "" then ""
    else if |s| >= 2 && s[0] == a && s[1] == b then sub + ReplacePair(s[2..], a, b, sub)
    else [s[0]] + ReplacePair(s[1..], a, b, sub)
  }

  function Escape(token: string): string {
    ReplaceChar(ReplaceChar(token, '~', "~0"), '/', "~1")
  }

  function Unescape(token: string): string {
    ReplacePair(ReplacePair(token, '~', '1', "/"), '~', '0', "~")
  }

  // ---- escaping is a character map ----

  function Coded(c: char): string {
    if c == '~' then "~0" else if c == '/' then "~1" else [c]
  }

  function HalfCoded(c: char): string {
    if c == '~' then "~0" else [c]
  }

  function MapChars(s: string, f: char -> string): string {
    if s == "" then "" else f(s[0]) + MapChars(s[1..], f)
  }

  lemma {:induction false} ReplaceCharConcat(s: string, t: string, c: char, sub: string)
    ensures ReplaceChar(s + t, c, sub) == ReplaceChar(s, c, sub) + ReplaceChar(t, c, sub)
  {
    if s == "" {
      assert s + t == t;
    } else {
      assert (s + t)[1..] == s[1..] + t;
      ReplaceCharConcat(s[1..], t, c, sub);
    }
  }

  lemma {:induction false} EscapeIsMap(s: string)
    ensures Escape(s) == MapChars(s, Coded)
  {
    if s != "" {
      EscapeIsMap(s[1..]);
      var head := if s[0] == '~' then "~0" else [s[0]];
      ReplaceCharConcat(head, ReplaceChar(s[1..], '~', "~0"), '/', "~1");
      assert ReplaceChar(head, '/', "~1") == Coded(s[0]) by {
        assert head[1..] == "" || head[1..] == "0";
        assert ReplaceChar("0", '/', "~1") == "0" + ReplaceChar("", '/', "~1");
      }
    }
  }

  lemma {:induction false} UndoSlashes(s: string)
    ensures ReplacePair(MapChars(s, Coded), '~', '1', "/") == MapChars(s, HalfCoded)
  {
    if s != "" {
      UndoSlashes(s[1..]);
      FirstUndone(s[0], MapChars(s[1..], Coded));
      hide ReplacePair;
    }
  }

  lemma FirstUndone(c: char, rest: string)
    ensures ReplacePair(Coded(c) + rest, '~', '1', "/") == HalfCoded(c) + ReplacePair(rest, '~', '1', "/")
  {
    var whole := Coded(c) + rest;
    if c == '~' {
      assert whole == "~0" + rest && whole[1..] == "0" + rest && whole[1..][1..] == rest;
    } else if c == '/' {
      assert whole == "~1" + rest && whole[2..] == rest;
    } else {
      assert whole[1..] == rest;
    }
  }

  lemma {:induction false} UndoTildes(s: string)
    ensures ReplacePair(MapChars(s, HalfCoded), '~', '0', "~") == s
  {
    if s != "" {
      UndoTildes(s[1..]);
      var rest := MapChars(s[1..], HalfCoded);
      var whole := HalfCoded(s[0]) + rest;
      if s[0] == '~' {
        assert whole == "~0" + rest && whole[2..] == rest;
      } else {
        assert whole[1..] == rest;
      }
      assert s == [s[0]] + s[1..];
    }
  }

  /** Reading a token back gives what was written, whatever it contains. */
  lemma RoundTrip(s: string)
    ensures Unescape(Escape(s)) == s
  {
    EscapeIsMap(s);
    UndoSlashes(s);
    UndoTildes(s);
  }

  lemma {:induction false} EscapedHasNoSlash(s: string)
    ensures '/' !in Escape(s)
  {
    EscapeIsMap(s);
    if s != "" {
      EscapedHasNoSlash(s[1..]);
      EscapeIsMap(s[1..]);
    }
  }

  // ---- splitting a path ----

  function Path(collection: string, id: string): string {
    "/" + collection + "/" + Escape(id)
  }

  /** A written path splits into its collection and its token, and the token reads back as the id. */
  lemma PathParts(collection: string, id: string)
    requires '/' !in collection
    ensures |SplitChar(Path(collection, id), '/')| == 3
    ensures SplitChar(Path(collection, id), '/')[1] == collection
    ensures Unescape(SplitChar(Path(collection, id), '/')[2]) == id
  {
    RoundTrip(id);
    EscapedHasNoSlash(id);
    hide Escape;
    hide Unescape;
    SplitTwo(collection, Escape(id));
  }

  lemma SplitTwo(collection: string, token: string)
    requires '/' !in collection && '/' !in token
    ensures SplitChar("/" + collection + "/" + token, '/') == ["", collection, token]
  {
    assert "" + "" == "";
    SplitFirst(token, "", '/');
    assert token + "" == token;
    SplitFirst(collection, "/" + token, '/');
    SplitFirst("", "/" + (collection + ("/" + token)), '/');
    assert "/" + collection + "/" + token == "" + ("/" + (collection + ("/" + token)));
    AfterSlash(token);
    AfterSlash(collection + ("/" + token));
    hide SplitChar;
  }

  lemma AfterSlash(rest: string)
    ensures SplitChar("/" + rest, '/') == [""] + SplitChar(rest, '/')
  {
    assert ("/" + rest)[1..] == rest;
  }

  // ---- the two codes ----

  lemma {:induction false} MapConcat(s: string, t: string, f: char -> string)
    ensures MapChars(s + t, f) == MapChars(s, f) + MapChars(t, f)
  {
    if s == "" {
      assert s + t == t;
    } else {
      assert (s + t)[1..] == s[1..] + t;
      MapConcat(s[1..], t, f);
    }
  }

  /** Section 3 of RFC 6901: '~' is written ~0 and '/' is written ~1, each wherever it stands; the rest stays. */
  lemma EscapeCodes(s: string, t: string, c: char)
    ensures Escape(s + t) == Escape(s) + Escape(t)
    ensures Escape([c]) == if c == '~' then "~0" else if c == '/' then "~1" else [c]
  {
    EscapeIsMap(s + t);
    EscapeIsMap(s);
    EscapeIsMap(t);
    MapConcat(s, t, Coded);
    EscapeIsMap([c]);
    assert MapChars([c], Coded) == Coded(c) + MapChars("", Coded);
  }
}
