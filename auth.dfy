/**
 * `getBearerToken`: the token of an `Authorization: Bearer <token>` header.
 *
 * The header value is matched against `/^Bearer\s+(.+)$/i` (no multiline
 * flag, so `^` and `$` are the ends of the whole value, and `.` matches any
 * character but a line terminator); the captured group is trimmed, and an
 * empty result counts as no token. Characters are UTF-16 code units.
 */
module Auth {
  import opened Common

  /** The characters of `\s`, and of `String.prototype.trim`: white space and line terminators. */
  predicate IsSpace(c: char)
  {
    var n := c as int;
    n == 0x09 || n == 0x0A || n == 0x0B || n == 0x0C || n == 0x0D || n == 0x20 || n == 0xA0
    || n == 0x1680 || (0x2000 <= n <= 0x200A) || n == 0x2028 || n == 0x2029 || n == 0x202F
    || n == 0x205F || n == 0x3000 || n == 0xFEFF
  }

  /** The characters `.` does not match. */
  predicate IsLineTerminator(c: char)
  {
    var n := c as int;
    n == 0x0A || n == 0x0D || n == 0x2028 || n == 0x2029
  }

  /** ASCII lower case, the only folding the `i` flag does on these letters. */
  function Lower(c: char): char
  {
    if 'A' <= c <= 'Z' then (c as int + 32) as char else c
  }

  /** The six characters spell `bearer` in any mix of cases. */
  predicate IsScheme(s: string)
  {
    |s| == 6 && forall i :: 0 <= i < 6 ==> Lower(s[i]) == "bearer"[i]
  }

  predicate AllSpace(s: string)
  {
    forall i :: 0 <= i < |s| ==> IsSpace(s[i])
  }

  predicate NoLineTerminator(s: string)
  {
    forall i :: 0 <= i < |s| ==> !IsLineTerminator(s[i])
  }

  /**
   * The regular expression matches `h` with `n` characters taken by `\s+`:
   * the scheme, `n >= 1` white-space characters, then at least one more
   * character and no line terminator up to the end.
   */
  predicate Candidate(h: string, n: int)
  {
    && |h| >= 6 && IsScheme(h[..6])
    && 1 <= n && 6 + n < |h|
    && AllSpace(h[6..6 + n])
    && NoLineTerminator(h[6 + n..])
  }

  /** The length of the white-space run at the start of `s`. */
  function LeadingSpaces(s: string): (n: nat)
    ensures n <= |s| && AllSpace(s[..n])
    ensures n < |s| ==> !IsSpace(s[n])
  {
    if s != [] && IsSpace(s[0]) then
      var n := 1 + LeadingSpaces(s[1..]);
      assert s[..n] == [s[0]] + s[1..][..n - 1];
      n
    else 0
  }

  /**
   * The group the match captures. `\s+` is greedy: it takes the whole
   * white-space run after the scheme when text follows it, and gives back
   * its last character when nothing does.
   */
  function BearerCapture(h: string): Option<string>
  {
    if |h| < 6 || !IsScheme(h[..6]) then None
    else
      var rest := h[6..];
      var n := LeadingSpaces(rest);
      if n == 0 then None
      else if n < |rest| then
        if NoLineTerminator(rest[n..]) then Some(rest[n..]) else None
      else if n >= 2 && !IsLineTerminator(rest[n - 1]) then Some([rest[n - 1]])
      else None
  }

  /** `s.trimStart()` */
  function TrimStart(s: string): (r: string)
    ensures |r| <= |s| && r == s[|s| - |r|..] && AllSpace(s[..|s| - |r|])
    ensures r != [] ==> !IsSpace(r[0])
  {
    if s != [] && IsSpace(s[0]) then
      var r := TrimStart(s[1..]);
      assert s[..|s| - |r|] == [s[0]] + s[1..][..|s| - 1 - |r|];
      r
    else s
  }

  /** `s.trimEnd()` */
  function TrimEnd(s: string): (r: string)
    ensures |r| <= |s| && r == s[..|r|] && AllSpace(s[|r|..])
    ensures r != [] ==> !IsSpace(r[|r| - 1])
  {
    if s != [] && IsSpace(s[|s| - 1]) then
      var r := TrimEnd(s[..|s| - 1]);
      assert s[|r|..] == s[..|s| - 1][|r|..] + [s[|s| - 1]];
      r
    else s
  }

  function Trim(s: string): string
  {
    TrimEnd(TrimStart(s))
  }

  /**
   * `getBearerToken`: `header` is what the request's `authorization` header
   * lookup returns (None when it is absent).
   */
  function BearerToken(header: Option<string>): (t: Option<string>)
    ensures header.None? || header.value == "" ==> t.None?
    ensures t.Some? ==> t.value != "" && !IsSpace(t.value[0]) && !IsSpace(t.value[|t.value| - 1])
  {
    if header.None? || header.value == "" then None
    else
      match BearerCapture(header.value)
      case None => None
      case Some(c) =>
        var t := Trim(c);
        if t == "" then None else Some(t)
  }

  /** A white-space prefix is no longer than the leading run. */
  lemma {:induction false} LeadingSpacesMax(s: string, k: nat)
    requires k <= |s| && AllSpace(s[..k])
    ensures k <= LeadingSpaces(s)
  {
    if k > 0 {
      assert IsSpace(s[..k][0]);
      assert s[1..][..k - 1] == s[..k][1..];
      LeadingSpacesMax(s[1..], k - 1);
    }
  }

  /** The leading run of white space ends where the first other character is. */
  lemma {:induction false} LeadingSpacesExact(s: string, k: nat)
    requires k <= |s| && AllSpace(s[..k]) && (k < |s| ==> !IsSpace(s[k]))
    ensures LeadingSpaces(s) == k
  {
    if k > 0 {
      assert IsSpace(s[..k][0]);
      assert s[1..][..k - 1] == s[..k][1..];
      LeadingSpacesExact(s[1..], k - 1);
    }
  }

  /** Every candidate split lies within the leading run, and what follows the run has no line break. */
  lemma {:induction false} CandidateBound(h: string, m: int)
    requires Candidate(h, m)
    ensures var rest := h[6..]; var n0 := LeadingSpaces(rest);
      && m <= n0
      && NoLineTerminator(rest[n0..])
      && (n0 == |rest| ==> m <= n0 - 1 && !IsLineTerminator(rest[n0 - 1]))
  {
    var rest := h[6..];
    assert rest[..m] == h[6..6 + m];
    LeadingSpacesMax(rest, m);
    var n0 := LeadingSpaces(rest);
    forall k | 0 <= k < |rest[n0..]| ensures !IsLineTerminator(rest[n0..][k]) {
      assert rest[n0..][k] == h[6 + m..][n0 - m + k];
    }
    if n0 == |rest| {
      assert rest[n0 - 1] == h[6 + m..][n0 - 1 - m];
    }
  }

  /**
   * The capture is that of the regular expression: there is a match exactly
   * when some split is a candidate, and the group then starts after the
   * longest white-space run of any candidate.
   */
  lemma {:induction false} BearerCaptureIsGreedyMatch(h: string)
    ensures BearerCapture(h).Some? <==> exists n :: Candidate(h, n)
    ensures BearerCapture(h).Some? ==>
      exists n :: Candidate(h, n) && BearerCapture(h).value == h[6 + n..]
                  && forall m :: Candidate(h, m) ==> m <= n
  {
    forall m | Candidate(h, m)
      ensures var rest := h[6..]; var n0 := LeadingSpaces(rest);
        && m <= n0
        && NoLineTerminator(rest[n0..])
        && (n0 == |rest| ==> m <= n0 - 1 && !IsLineTerminator(rest[n0 - 1]))
    {
      CandidateBound(h, m);
    }
    if |h| >= 6 && IsScheme(h[..6]) {
      var rest := h[6..];
      var n0 := LeadingSpaces(rest);
      if n0 >= 1 && n0 < |rest| && NoLineTerminator(rest[n0..]) {
        assert h[6..6 + n0] == rest[..n0];
        assert Candidate(h, n0);
      } else if n0 >= 2 && n0 == |rest| && !IsLineTerminator(rest[n0 - 1]) {
        assert h[6..6 + n0 - 1] == rest[..n0][..n0 - 1];
        assert h[6 + n0 - 1..] == [rest[n0 - 1]];
        assert Candidate(h, n0 - 1);
      }
    }
  }

  /** No token unless the header starts with the scheme and white space and has more text. */
  lemma {:induction false} TokenShape(h: string)
    ensures BearerToken(Some(h)).Some? ==>
      exists i, j :: 6 < i <= j <= |h| && IsScheme(h[..6]) && AllSpace(h[6..i])
                     && BearerToken(Some(h)).value == h[i..j] && AllSpace(h[j..])
  {
    if |h| >= 6 && IsScheme(h[..6]) {
      var rest := h[6..];
      var n0 := LeadingSpaces(rest);
      if 1 <= n0 == |rest| {
        SpaceTrims(rest[..n0][n0 - 1]);
      } else if 1 <= n0 < |rest| && NoLineTerminator(rest[n0..]) {
        TokenAfterRun(h, n0);
      }
    }
  }

  /** A lone white-space character trims to nothing. */
  lemma {:induction false} SpaceTrims(c: char)
    requires IsSpace(c)
    ensures Trim([c]) == []
  {
    assert [c][1..] == [];
  }

  /** When text follows the white-space run, the token is that text with its trailing blanks cut. */
  lemma {:induction false} TokenAfterRun(h: string, n0: nat)
    requires |h| >= 6 && IsScheme(h[..6])
    requires n0 == LeadingSpaces(h[6..]) && 1 <= n0 < |h| - 6 && NoLineTerminator(h[6 + n0..])
    ensures BearerToken(Some(h)).Some? ==>
      exists i, j :: 6 < i <= j <= |h| && IsScheme(h[..6]) && AllSpace(h[6..i])
                     && BearerToken(Some(h)).value == h[i..j] && AllSpace(h[j..])
  {
    TokenAfterRunValue(h, n0);
    RunSplit(h, n0);
  }

  /** The capture is the text after the run; trimming it only cuts its trailing blanks. */
  lemma {:induction false} TokenAfterRunValue(h: string, n0: nat)
    requires |h| >= 6 && IsScheme(h[..6])
    requires n0 == LeadingSpaces(h[6..]) && 1 <= n0 < |h| - 6 && NoLineTerminator(h[6 + n0..])
    ensures BearerToken(Some(h)) == Some(TrimEnd(h[6 + n0..]))
  {
    var r := h[6 + n0..];
    Slices(h, 6, n0);
    assert TrimStart(r) == r by {
      assert !IsSpace(r[0]);
    }
  }

  /** Where the white-space run, the trimmed text and the trailing blanks sit in `h`. */
  lemma {:induction false} RunSplit(h: string, n0: nat)
    requires |h| >= 6 && IsScheme(h[..6])
    requires 1 <= n0 < |h| - 6 && n0 == LeadingSpaces(h[6..])
    ensures exists i, j :: 6 < i <= j <= |h| && IsScheme(h[..6]) && AllSpace(h[6..i])
                           && TrimEnd(h[6 + n0..]) == h[i..j] && AllSpace(h[j..])
  {
    var r := h[6 + n0..];
    Slices(h, 6, n0);
    var e := TrimEnd(r);
    Slices(h, 6 + n0, |e|);
    var i, j := 6 + n0, 6 + n0 + |e|;
    assert e == r[..|e|];
    assert 6 < i <= j <= |h| && IsScheme(h[..6]) && AllSpace(h[6..i]) && e == h[i..j] && AllSpace(h[j..]);
  }

  /** Cutting `h` at `i` and then at `n` more. */
  lemma {:induction false} Slices(h: string, i: nat, n: nat)
    requires i + n <= |h|
    ensures h[i..][..n] == h[i..i + n] && h[i..][n..] == h[i + n..]
  {
  }

  /**
   * The scheme, white space, a token with no surrounding white space and
   * no line terminator, then trailing blanks: the token is returned.
   */
  lemma {:induction false} TokenAccepted(scheme: string, ws: string, token: string, tail: string)
    requires IsScheme(scheme) && |ws| >= 1 && AllSpace(ws)
    requires token != [] && !IsSpace(token[0]) && !IsSpace(token[|token| - 1]) && NoLineTerminator(token)
    requires AllSpace(tail) && NoLineTerminator(tail)
    ensures BearerToken(Some(scheme + ws + token + tail)) == Some(token)
  {
    var h := scheme + ws + token + tail;
    assert h[..6] == scheme;
    var rest := h[6..];
    assert rest == ws + token + tail;
    assert rest[..|ws|] == ws && rest[|ws|] == token[0];
    LeadingSpacesExact(rest, |ws|);
    var n0 := |ws|;
    var r := rest[n0..];
    assert r == token + tail;
    assert NoLineTerminator(r) by {
      forall k | 0 <= k < |r| ensures !IsLineTerminator(r[k]) {
        if k < |token| {
          assert r[k] == token[k];
        } else {
          assert r[k] == tail[k - |token|];
        }
      }
    }
    assert BearerCapture(h) == Some(r);
    assert TrimStart(r) == r;
    TrimEndOfBlanks(token, tail);
  }

  lemma {:induction false} TrimEndOfBlanks(t: string, tail: string)
    requires t != [] && !IsSpace(t[|t| - 1]) && AllSpace(tail)
    ensures TrimEnd(t + tail) == t
  {
    if tail == [] {
      assert t + tail == t;
    } else {
      var s := t + tail;
      assert s[..|s| - 1] == t + tail[..|tail| - 1];
      TrimEndOfBlanks(t, tail[..|tail| - 1]);
    }
  }

  /** The scheme followed by nothing but white space gives no token. */
  lemma {:induction false} BlankTokenRejected(scheme: string, ws: string)
    requires IsScheme(scheme) && AllSpace(ws)
    ensures BearerToken(Some(scheme + ws)).None?
  {
    var h := scheme + ws;
    assert h[..6] == scheme;
    var rest := h[6..];
    assert rest == ws;
    assert rest[..|ws|] == ws;
    LeadingSpacesExact(rest, |ws|);
    if |ws| >= 1 {
      assert IsSpace(rest[|ws| - 1]);
      assert TrimStart([rest[|ws| - 1]]) == [];
    }
  }

  /** A line break after the token leaves the expression unmatched: no token. */
  lemma {:induction false} TrailingNewlineRejected()
    ensures BearerToken(Some("Bearer abc\n")).None?
  {
    var h := "Bearer abc\n";
    assert h[..6] == "Bearer";
    var rest := h[6..];
    assert rest == " abc\n";
    LeadingSpacesExact(rest, 1);
    assert IsLineTerminator(rest[1..][3]);
  }
}
