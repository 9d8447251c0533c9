/**
 * The backend's CORS origin check (`backend/src/index.ts`): the list of allowed origins read
 * from `CORS_ORIGINS`, and the `origin` callback that accepts a request's origin when some
 * entry of the list allows it. An entry with `*` is turned into an anchored regular
 * expression in which each `*` becomes `.*`; any other entry must equal the origin.
 *
 * The environment variable and the request's `Origin` header are parameters.
 */
module Cors {
  import opened Wrappers
  import opened Text

  /** The origins allowed when `CORS_ORIGINS` is not set. */
  const DefaultOrigins: seq<string> := [
    "http://localhost:8080",
    "http://localhost:8081",
    "http://localhost:19000",
    "http://localhost:19006"
  ]

  const NotAllowed: string := "Not allowed by CORS"

  // ---------------------------------------------------------------------------
  // The origin list
  // ---------------------------------------------------------------------------

  /** `s.split(sep)`: the pieces between separators, always at least one. */
  function Split(s: string, sep: char): (pieces: seq<string>)
    ensures |pieces| >= 1
    ensures forall k :: 0 <= k < |pieces| ==> sep !in pieces[k]
  {
    if s == [] then [""]
    else
      var rest := Split(s[1..], sep);
      if s[0] == sep then [""] + rest
      else [[s[0]] + rest[0]] + rest[1..]
  }

  /** `pieces.join(sep)`. */
  function Join(pieces: seq<string>, sep: char): string
    requires |pieces| >= 1
  {
    if |pieces| == 1 then pieces[0] else pieces[0] + [sep] + Join(pieces[1..], sep)
  }

  /** Splitting loses nothing: joining the pieces back gives the text. */
  lemma {:induction false} SplitJoin(s: string, sep: char)
    ensures Join(Split(s, sep), sep) == s
  {
    if s != [] {
      SplitJoin(s[1..], sep);
      var rest := Split(s[1..], sep);
      if s[0] == sep {
        assert s == [sep] + s[1..];
      } else {
        var pieces := [[s[0]] + rest[0]] + rest[1..];
        if |rest| == 1 {
          assert s == [s[0]] + rest[0];
        } else {
          assert pieces[1..] == rest[1..];
          assert Join(rest, sep) == rest[0] + [sep] + Join(rest[1..], sep);
          assert s == [s[0]] + s[1..];
        }
      }
    }
  }

  /** The allowed origins: `CORS_ORIGINS` split on commas with each entry trimmed, or the
      four local development origins when the variable is not set. A set but empty variable
      gives the single entry `""`. */
  function ParseOrigins(corsOrigins: Option<string>): (origins: seq<string>)
    ensures corsOrigins.None? ==> origins == DefaultOrigins
    ensures corsOrigins.Some? ==>
              |origins| == |Split(corsOrigins.value, ',')| >= 1
              && forall k :: 0 <= k < |origins| ==> NoEdgeWhitespace(origins[k]) && ',' !in origins[k]
    ensures corsOrigins.Some? ==>
              forall k :: 0 <= k < |origins| ==> origins[k] == Trim(Split(corsOrigins.value, ',')[k])
  {
    match corsOrigins
    case None => DefaultOrigins
    case Some(v) =>
      var pieces := Split(v, ',');
      var origins := seq(|pieces|, k requires 0 <= k < |pieces| => Trim(pieces[k]));
      assert forall k :: 0 <= k < |origins| ==> ',' !in origins[k] by {
        forall k | 0 <= k < |origins| ensures ',' !in origins[k] {
          TrimIsPiece(pieces[k]);
        }
      }
      origins
  }

  /** A list of comma-free entries without edge white space, written as `CORS_ORIGINS` with
      commas between them, is read back as the same list. */
  lemma {:induction false} OriginsRoundTrip(entries: seq<string>)
    requires |entries| >= 1
    requires forall k :: 0 <= k < |entries| ==> ',' !in entries[k] && NoEdgeWhitespace(entries[k])
    ensures ParseOrigins(Some(Join(entries, ','))) == entries
  {
    JoinSplit(entries, ',');
    var origins := ParseOrigins(Some(Join(entries, ',')));
    forall k | 0 <= k < |entries| ensures origins[k] == entries[k] {
      TrimFixed(entries[k]);
    }
  }

  /** Splitting undoes joining pieces that do not contain the separator. */
  lemma {:induction false} JoinSplit(pieces: seq<string>, sep: char)
    requires |pieces| >= 1
    requires forall k :: 0 <= k < |pieces| ==> sep !in pieces[k]
    ensures Split(Join(pieces, sep), sep) == pieces
  {
    if |pieces| == 1 {
      SplitPrefix(pieces[0], [], sep);
      assert pieces[0] + [] == pieces[0];
    } else {
      var j := Join(pieces[1..], sep);
      JoinSplit(pieces[1..], sep);
      assert ([sep] + j)[1..] == j;
      assert Split([sep] + j, sep) == [""] + pieces[1..];
      SplitPrefix(pieces[0], [sep] + j, sep);
      assert pieces[0] + [sep] + j == pieces[0] + ([sep] + j);
      assert pieces[0] + "" == pieces[0];
      assert ([""] + pieces[1..])[1..] == pieces[1..];
    }
  }

  /** A separator-free prefix is glued to the first piece of what follows it. */
  lemma {:induction false} SplitPrefix(a: string, t: string, sep: char)
    requires sep !in a
    ensures Split(a + t, sep) == [a + Split(t, sep)[0]] + Split(t, sep)[1..]
  {
    if a == [] {
      assert a + t == t;
      assert a + Split(t, sep)[0] == Split(t, sep)[0];
      assert Split(t, sep) == [Split(t, sep)[0]] + Split(t, sep)[1..];
    } else {
      assert a[0] in a;
      assert forall c :: c in a[1..] ==> c in a;
      var st := Split(t, sep);
      SplitPrefix(a[1..], t, sep);
      assert (a + t)[0] == a[0];
      assert (a + t)[1..] == a[1..] + t;
      var rest := Split(a[1..] + t, sep);
      assert rest == [a[1..] + st[0]] + st[1..];
      assert Split(a + t, sep) == [[a[0]] + rest[0]] + rest[1..];
      assert rest[1..] == st[1..];
      assert [a[0]] + (a[1..] + st[0]) == a + st[0];
    }
  }

  /** Trimming keeps a piece's characters. */
  lemma {:induction false} TrimIsPiece(s: string)
    ensures forall c :: c in Trim(s) ==> c in s
  {
    TrimInfix(s);
    InfixChars(s, Trim(s), |s| - |TrimStart(s)|);
  }

  lemma {:induction false} InfixChars(s: string, r: string, i: int)
    requires OccursAt(s, r, i)
    ensures forall c :: c in r ==> c in s
  {
    forall m | 0 <= m < |r| ensures r[m] in s {
      assert r[m] == s[i + m];
    }
  }

  // ---------------------------------------------------------------------------
  // Wildcard entries
  // ---------------------------------------------------------------------------

  /** What one pattern character other than `*` matches: `.` any character except a line
      terminator, anything else itself. */
  predicate CharMatches(p: char, c: char) {
    if p == '.' then !IsLineTerminator(c) else p == c
  }

  // The anchored pattern built from an entry, tested on the origin: each `*` matches any run of
  // characters without a line terminator.
  predicate Matches(entry: string, origin: string)
    decreases |entry| + |origin|
  {
    if entry == [] then origin == []
    else if entry[0] == '*' then
      Matches(entry[1..], origin) || (origin != [] && !IsLineTerminator(origin[0]) && Matches(entry, origin[1..]))
    else origin != [] && CharMatches(entry[0], origin[0]) && Matches(entry[1..], origin[1..])
  }

  predicate NoLineTerminator(s: string) {
    forall k :: 0 <= k < |s| ==> !IsLineTerminator(s[k])
  }

  /** A `*` at the head of an entry: the origin starts with some run without line terminators
      and the rest of the entry matches what follows. */
  lemma {:induction false} StarMatches(rest: string, origin: string)
    ensures Matches(['*'] + rest, origin) <==>
              exists i :: 0 <= i <= |origin| && NoLineTerminator(origin[..i]) && Matches(rest, origin[i..])
  {
    if Matches(['*'] + rest, origin) {
      StarConsumes(rest, origin);
    }
    if exists i :: 0 <= i <= |origin| && NoLineTerminator(origin[..i]) && Matches(rest, origin[i..]) {
      var i :| 0 <= i <= |origin| && NoLineTerminator(origin[..i]) && Matches(rest, origin[i..]);
      StarAbsorbs(rest, origin, i);
    }
  }

  /** A match of `*` followed by `rest` splits the origin where `rest` starts matching. */
  lemma {:induction false} StarConsumes(rest: string, origin: string)
    requires Matches(['*'] + rest, origin)
    ensures exists i :: 0 <= i <= |origin| && NoLineTerminator(origin[..i]) && Matches(rest, origin[i..])
    decreases |origin|
  {
    var p := ['*'] + rest;
    assert p[0] == '*' && p[1..] == rest;
    if Matches(rest, origin) {
      assert origin[..0] == [] && origin[0..] == origin;
    } else {
      assert origin != [] && !IsLineTerminator(origin[0]) && Matches(p, origin[1..]);
      StarConsumes(rest, origin[1..]);
      var i :| 0 <= i <= |origin[1..]| && NoLineTerminator(origin[1..][..i]) && Matches(rest, origin[1..][i..]);
      assert origin[..i + 1] == [origin[0]] + origin[1..][..i];
      assert origin[i + 1..] == origin[1..][i..];
      assert NoLineTerminator(origin[..i + 1]) && Matches(rest, origin[i + 1..]);
    }
  }

  /** A run without line terminators followed by a match of `rest` is a match of `*` then `rest`. */
  lemma {:induction false} StarAbsorbs(rest: string, origin: string, i: int)
    requires 0 <= i <= |origin| && NoLineTerminator(origin[..i]) && Matches(rest, origin[i..])
    ensures Matches(['*'] + rest, origin)
    decreases i
  {
    var p := ['*'] + rest;
    assert p[0] == '*' && p[1..] == rest;
    if i == 0 {
      assert origin[0..] == origin;
    } else {
      assert origin[..i][0] == origin[0];
      assert origin[1..][..i - 1] == origin[..i][1..];
      assert origin[1..][i - 1..] == origin[i..];
      StarAbsorbs(rest, origin[1..], i - 1);
    }
  }

  /** An entry without `*` or line terminators matches itself (a `.` matches itself too). */
  lemma {:induction false} LiteralMatchesItself(s: string)
    requires '*' !in s && NoLineTerminator(s)
    ensures Matches(s, s)
  {
    if s != [] {
      assert s[0] in s;
      assert forall c :: c in s[1..] ==> c in s;
      LiteralMatchesItself(s[1..]);
    }
  }

  /** `prefix*suffix` allows `prefix + w + suffix` for any `w` without line terminators. */
  lemma {:induction false} WildcardAllows(prefix: string, w: string, suffix: string)
    requires '*' !in prefix && NoLineTerminator(prefix)
    requires '*' !in suffix && NoLineTerminator(suffix)
    requires NoLineTerminator(w)
    ensures Matches(prefix + ['*'] + suffix, prefix + w + suffix)
    decreases |prefix|
  {
    if prefix == [] {
      assert prefix + ['*'] + suffix == ['*'] + suffix;
      assert prefix + w + suffix == w + suffix;
      LiteralMatchesItself(suffix);
      StarMatches(suffix, w + suffix);
      assert (w + suffix)[..|w|] == w && (w + suffix)[|w|..] == suffix;
    } else {
      assert prefix[0] in prefix;
      assert forall c :: c in prefix[1..] ==> c in prefix;
      WildcardAllows(prefix[1..], w, suffix);
      assert (prefix + ['*'] + suffix)[1..] == prefix[1..] + ['*'] + suffix;
      assert (prefix + w + suffix)[1..] == prefix[1..] + w + suffix;
    }
  }

  /** A literal prefix of the entry consumes the same prefix of the origin. */
  lemma {:induction false} PrefixMatches(prefix: string, entry: string, origin: string)
    requires '*' !in prefix && NoLineTerminator(prefix)
    requires Matches(entry, origin)
    ensures Matches(prefix + entry, prefix + origin)
    decreases |prefix|
  {
    if prefix != [] {
      assert prefix[0] in prefix;
      assert forall c :: c in prefix[1..] ==> c in prefix;
      PrefixMatches(prefix[1..], entry, origin);
      assert (prefix + entry)[0] == prefix[0] && (prefix + origin)[0] == prefix[0];
      assert (prefix + entry)[1..] == prefix[1..] + entry;
      assert (prefix + origin)[1..] == prefix[1..] + origin;
    } else {
      assert prefix + entry == entry && prefix + origin == origin;
    }
  }

  /** Dots keep their meaning as regular-expression wildcards: in `prefix*.tail` the dot
      matches any character, so the entry allows origins where no dot follows the wildcard
      part. */
  lemma {:induction false} DotAdmitsAnyCharacter(prefix: string, w: string, c: char, tail: string)
    requires '*' !in prefix && NoLineTerminator(prefix)
    requires '*' !in tail && NoLineTerminator(tail)
    requires NoLineTerminator(w) && !IsLineTerminator(c)
    ensures Matches(prefix + ['*', '.'] + tail, prefix + w + [c] + tail)
  {
    var entry, origin := ['*', '.'] + tail, w + [c] + tail;
    StarThenDot(w, c, tail);
    PrefixMatches(prefix, entry, origin);
    assert prefix + entry == prefix + ['*', '.'] + tail;
    assert prefix + origin == prefix + w + [c] + tail;
  }

  lemma {:induction false} StarThenDot(w: string, c: char, tail: string)
    requires '*' !in tail && NoLineTerminator(tail)
    requires NoLineTerminator(w) && !IsLineTerminator(c)
    ensures Matches(['*', '.'] + tail, w + [c] + tail)
  {
    var dotted := ['.'] + tail;
    var origin := w + [c] + tail;
    DotThenLiteral(c, tail);
    assert origin[..|w|] == w;
    assert origin[|w|..] == [c] + tail;
    StarMatches(dotted, origin);
    assert ['*'] + dotted == ['*', '.'] + tail;
  }

  lemma {:induction false} DotThenLiteral(c: char, tail: string)
    requires '*' !in tail && NoLineTerminator(tail)
    requires !IsLineTerminator(c)
    ensures Matches(['.'] + tail, [c] + tail)
  {
    LiteralMatchesItself(tail);
    assert (['.'] + tail)[1..] == tail && ([c] + tail)[1..] == tail;
  }

  // So the entry "https://*.example.com" also allows "https://evilexample.com".
  lemma {:induction false} DotIsAWildcard(entry: string, origin: string)
    requires entry == "https://*.example.com" && origin == "https://evilexample.com"
    ensures Matches(entry, origin)
  {
    var prefix, tail := "https:/" + "/", "example.com";
    assert '*' !in prefix && '*' !in tail;
    assert entry == prefix + ['*', '.'] + tail;
    assert origin == prefix + "evi" + ['l'] + tail;
    DotAdmitsAnyCharacter(prefix, "evi", 'l', tail);
  }

  // ---------------------------------------------------------------------------
  // The origin callback
  // ---------------------------------------------------------------------------

  /** One entry allows an origin: by pattern when it holds a `*`, by equality otherwise. */
  predicate EntryAllows(entry: string, origin: string) {
    if '*' in entry then Matches(entry, origin) else entry == origin
  }

  /** The callback's answer. */
  datatype CorsDecision = Allow | Deny(message: string)

  /** The `origin` callback: a request without an origin (no header, or an empty one) is
      allowed; otherwise it is allowed exactly when some entry allows it. */
  function CheckOrigin(origins: seq<string>, origin: Option<string>): (d: CorsDecision)
    ensures origin.None? || origin == Some("") ==> d == Allow
    ensures origin.Some? && origin.value != "" ==>
              (d == Allow <==> exists k :: 0 <= k < |origins| && EntryAllows(origins[k], origin.value))
    ensures d.Deny? ==> d.message == NotAllowed
  {
    match origin
    case None => Allow
    case Some(o) =>
      if o == "" then Allow
      else if exists k :: 0 <= k < |origins| && EntryAllows(origins[k], o) then Allow
      else Deny(NotAllowed)
  }

  /** With `CORS_ORIGINS` unset, the four local development origins are allowed and an origin
      that is none of them is refused. */
  lemma {:induction false} DefaultsAllowExactly(origin: string)
    requires origin != ""
    ensures CheckOrigin(ParseOrigins(None), Some(origin)) == Allow <==> origin in DefaultOrigins
  {
    var origins := ParseOrigins(None);
    assert '*' !in origins[0] && '*' !in origins[1] && '*' !in origins[2] && '*' !in origins[3];
    if origin in DefaultOrigins {
      var k :| 0 <= k < |DefaultOrigins| && DefaultOrigins[k] == origin;
      assert EntryAllows(origins[k], origin);
    }
  }

  /** An entry without `*` allows only the identical origin. */
  lemma {:induction false} PlainEntryIsExact(entry: string, origin: string)
    requires '*' !in entry
    ensures EntryAllows(entry, origin) <==> entry == origin
  {
  }
}
