/**
 Minting the slug of a personal organisation.

 `lower` is the suggested slug after lower-casing, an arbitrary text. A slug itself is ASCII, so its characters
 are its bytes.
 */
module Slug {
  const MAX_BASE: nat := 50
  const MAX_SLUG: nat := 63
  const MAX_RETRIES: nat := 5

  predicate Alnum(c: char) {
    'a' <= c <= 'z' || '0' <= c <= '9'
  }

  predicate EndsAlnum(s: string) {
    s != [] && Alnum(s[|s| - 1])
  }

  predicate EndsDash(s: string) {
    s != [] && s[|s| - 1] == '-'
  }

  // ----- the reference: alphanumeric words joined by dashes

  /** The maximal alphanumeric runs of `s`. */
  function Words(s: string): seq<string> {
    if s == [] then []
    else
      var front, c := s[..|s| - 1], s[|s| - 1];
      var ws := Words(front);
      if !Alnum(c) then ws
      else if EndsAlnum(front) && ws != [] then ws[..|ws| - 1] + [ws[|ws| - 1] + [c]]
      else ws + [[c]]
  }

  function Join(ws: seq<string>): string {
    if ws == [] then ""
    else if |ws| == 1 then ws[0]
    else Join(ws[..|ws| - 1]) + "-" + ws[|ws| - 1]
  }

  function StripDashes(s: string): string {
    if EndsDash(s) then StripDashes(s[..|s| - 1]) else s
  }

  function Capped(s: string): string {
    if |s| > MAX_BASE then StripDashes(s[..MAX_BASE]) else s
  }

  function SlugOf(lower: string): string {
    Capped(if Words(lower) == [] then "org" else Join(Words(lower)))
  }

  /** Starts and ends alphanumeric, consists of [a-z0-9-], and has no two dashes in a row. */
  predicate Clean(s: string) {
    && EndsAlnum(s) && Tidy(s)
  }

  /** Like `Clean`, but a dash may come last; true of the empty text. */
  predicate Tidy(s: string) {
    && (forall i :: 0 <= i < |s| ==> Alnum(s[i]) || s[i] == '-')
    && (s != [] ==> Alnum(s[0]))
    && forall i :: 0 <= i < |s| - 1 ==> s[i] == '-' ==> s[i + 1] != '-'
  }

  // ----- how the joined words grow

  lemma {:induction false} WordsSolid(s: string)
    ensures EndsAlnum(s) ==> Words(s) != []
    ensures forall i :: 0 <= i < |Words(s)| ==> Words(s)[i] != []
  {
    if s != [] { WordsSolid(s[..|s| - 1]); }
  }

  lemma JoinSnoc(ws: seq<string>, w: string)
    ensures Join(ws + [w]) == if ws == [] then w else Join(ws) + "-" + w
  {
    assert (ws + [w])[..|ws|] == ws;
  }

  lemma JoinExtend(ws: seq<string>, w: string, c: char)
    ensures Join(ws + [w + [c]]) == Join(ws + [w]) + [c]
  {
    JoinSnoc(ws, w);
    JoinSnoc(ws, w + [c]);
    assert Join(ws) + "-" + (w + [c]) == Join(ws) + "-" + w + [c];
  }

  function Joined(s: string): string {
    Join(Words(s))
  }

  lemma JoinedEmpty(s: string)
    ensures Joined(s) == [] <==> Words(s) == []
  {
    WordsSolid(s);
  }

  lemma JoinedStep(s: string, c: char)
    ensures Joined(s + [c]) == if !Alnum(c) then Joined(s)
                               else if EndsAlnum(s) || Joined(s) == [] then Joined(s) + [c]
                               else Joined(s) + "-" + [c]
  {
    var ws := Words(s);
    assert (s + [c])[..|s|] == s;
    JoinedEmpty(s);
    if Alnum(c) {
      if EndsAlnum(s) {
        WordsSolid(s);
        JoinExtend(ws[..|ws| - 1], ws[|ws| - 1], c);
        assert ws[..|ws| - 1] + [ws[|ws| - 1]] == ws;
      } else {
        JoinSnoc(ws, [c]);
      }
    }
  }

  lemma TidySnoc(t: string, c: char)
    requires Tidy(t) && (Alnum(c) || (c == '-' && EndsAlnum(t)))
    ensures Tidy(t + [c])
  {
  }

  lemma {:induction false} JoinedIsClean(s: string)
    ensures Joined(s) != [] ==> Clean(Joined(s))
  {
    if s != [] {
      var front, c := s[..|s| - 1], s[|s| - 1];
      JoinedIsClean(front);
      assert s == front + [c];
      JoinedStep(front, c);
      if Alnum(c) {
        var t := Joined(front);
        if EndsAlnum(front) || t == [] {
          TidySnoc(t, c);
        } else {
          TidySnoc(t, '-');
          TidySnoc(t + "-", c);
        }
      }
    }
  }

  lemma TidyPrefix(t: string, k: nat)
    requires Tidy(t) && k <= |t|
    ensures Tidy(t[..k])
  {
  }

  lemma {:induction false} StripKeeps(t: string)
    requires Tidy(t)
    ensures StripDashes(t) <= t && Tidy(StripDashes(t)) && !EndsDash(StripDashes(t))
    ensures t != [] ==> StripDashes(t) != []
  {
    if EndsDash(t) {
      TidyPrefix(t, |t| - 1);
      StripKeeps(t[..|t| - 1]);
    }
  }

  lemma TidyThenClean(t: string)
    requires t != [] && Tidy(t) && !EndsDash(t)
    ensures Clean(t)
  {
  }

  /** Whatever the input, a slug of 1 to 50 characters comes out. */
  lemma SlugIsClean(lower: string)
    ensures 1 <= |SlugOf(lower)| <= MAX_BASE && Clean(SlugOf(lower))
  {
    JoinedIsClean(lower);
    JoinedEmpty(lower);
    var t := if Words(lower) == [] then "org" else Joined(lower);
    assert Clean(t);
    if |t| > MAX_BASE {
      TidyPrefix(t, MAX_BASE);
      StripKeeps(t[..MAX_BASE]);
      TidyThenClean(StripDashes(t[..MAX_BASE]));
    }
  }

  lemma {:induction false} JoinedOfTidy(t: string)
    requires Tidy(t)
    ensures t == Joined(t) + if EndsDash(t) then "-" else ""
  {
    if t != [] {
      var front, c := t[..|t| - 1], t[|t| - 1];
      TidyPrefix(t, |t| - 1);
      JoinedOfTidy(front);
      assert t == front + [c];
      JoinedStep(front, c);
      if front != [] {
        assert Alnum(front[|front| - 1]) || front[|front| - 1] == '-';
        assert c == '-' ==> front[|front| - 1] != '-';
      }
    }
  }

  /** The slugs the sanitiser produces are exactly the clean texts of up to 50 characters, and it leaves those alone. */
  lemma SlugFixedPoints(t: string)
    ensures SlugOf(t) == t <==> Clean(t) && |t| <= MAX_BASE
    ensures SlugOf(SlugOf(t)) == SlugOf(t)
  {
    SlugIsClean(t);
    if Clean(t) && |t| <= MAX_BASE { CleanIsFixed(t); }
    CleanIsFixed(SlugOf(t));
  }

  lemma CleanIsFixed(t: string)
    requires Clean(t) && |t| <= MAX_BASE
    ensures SlugOf(t) == t
  {
    JoinedOfTidy(t);
    JoinedEmpty(t);
  }

  // ----- what a slug is of its text

  /** A lower-case letter or a digit, by its ASCII code. */
  predicate Kept(c: char) {
    97 <= c as int <= 122 || 48 <= c as int <= 57
  }

  lemma KeptIsAlnum(c: char)
    ensures Kept(c) <==> Alnum(c)
  {
  }

  lemma {:induction false} WordIsKept(w: string)
    requires forall i :: 0 <= i < |w| ==> Kept(w[i])
    ensures Joined(w) == w
  {
    if w != [] {
      var front, c := w[..|w| - 1], w[|w| - 1];
      WordIsKept(front);
      KeptIsAlnum(c);
      if front != [] { KeptIsAlnum(front[|front| - 1]); }
      assert w == front + [c];
      JoinedStep(front, c);
    }
  }

  /** Any other character separates: one dash between what comes before and after it, if both have a letter or digit. */
  lemma {:induction false} SeparatorJoins(a: string, c: char, b: string)
    requires !Kept(c)
    ensures Joined(a + [c] + b) ==
              if Joined(a) == [] then Joined(b) else if Joined(b) == [] then Joined(a) else Joined(a) + "-" + Joined(b)
  {
    KeptIsAlnum(c);
    if b == [] {
      JoinedStep(a, c);
      assert a + [c] + b == a + [c];
    } else {
      var front, d := b[..|b| - 1], b[|b| - 1];
      SeparatorJoins(a, c, front);
      assert b == front + [d] && a + [c] + b == a + [c] + front + [d];
      JoinedStep(a + [c] + front, d);
      JoinedStep(front, d);
      JoinedEmpty(front);
      WordsSolid(front);
      assert EndsAlnum(a + [c] + front) <==> EndsAlnum(front);
    }
  }

  lemma {:induction false} NoneKept(s: string)
    ensures Joined(s) == [] <==> forall i :: 0 <= i < |s| ==> !Kept(s[i])
  {
    if s != [] {
      var front, c := s[..|s| - 1], s[|s| - 1];
      NoneKept(front);
      KeptIsAlnum(c);
      assert s == front + [c];
      JoinedStep(front, c);
    }
  }

  /**
   With the two laws above the slug is determined: the words of the text joined by single dashes, or "org" when it has
   none, cut after 50 characters and one character earlier when that would leave a dash at the end.
   */
  lemma SlugIs(lower: string)
    ensures var joined, slug := Joined(lower), SlugOf(lower);
            && ((forall i :: 0 <= i < |lower| ==> !Kept(lower[i])) ==> slug == "org")
            && (!(forall i :: 0 <= i < |lower| ==> !Kept(lower[i])) ==>
                  slug == if |joined| <= 50 then joined else if joined[49] == '-' then joined[..49] else joined[..50])
  {
    NoneKept(lower);
    JoinedEmpty(lower);
    JoinedIsClean(lower);
    if |Joined(lower)| > 50 { StripOne(Joined(lower)[..50]); }
  }

  /** A clean text cut short ends in one dash at most. */
  lemma StripOne(t: string)
    requires |t| == 50 && forall i :: 0 <= i < 49 ==> t[i] == '-' ==> t[i + 1] != '-'
    ensures StripDashes(t) == if t[49] == '-' then t[..49] else t
  {
    if t[49] == '-' {
      var shorter := t[..49];
      assert shorter[48] == t[48] && t[48] != '-';
      assert StripDashes(shorter) == shorter;
    }
  }

  // ----- the parsed slug

  datatype ParseError = Empty | TooLong | Malformed

  datatype Parsed = Slugged(text: string) | Rejected(error: ParseError)

  function ParseSlug(raw: string): Parsed {
    if raw == [] then Rejected(Empty)
    else if |raw| > MAX_SLUG then Rejected(TooLong)
    else if !Alnum(raw[0]) then Rejected(Malformed)
    else if exists i :: 1 <= i < |raw| && !Alnum(raw[i]) && raw[i] != '-' then Rejected(Malformed)
    else Slugged(raw)
  }

  /** The parser takes exactly the texts of 1 to 63 letters, digits and dashes that do not start with a dash. */
  lemma ParsesIff(raw: string)
    ensures ParseSlug(raw) == Slugged(raw) <==>
              1 <= |raw| <= 63 && raw[0] != '-' && forall i :: 0 <= i < |raw| ==> Kept(raw[i]) || raw[i] == '-'
    ensures ParseSlug(raw).Rejected? || ParseSlug(raw) == Slugged(raw)
  {
    forall i | 0 <= i < |raw| ensures Kept(raw[i]) <==> Alnum(raw[i]) { KeptIsAlnum(raw[i]); }
  }

  predicate Hex(c: char) {
    '0' <= c <= '9' || 'a' <= c <= 'f'
  }

  predicate IsSuffix(s: string) {
    |s| == 4 && forall i :: 0 <= i < 4 ==> Hex(s[i])
  }

  function Candidate(base: string, attempt: nat, suffix: string): string {
    if attempt == 0 then base else base + "-" + suffix
  }

  /** Every candidate parses, so the arm that retries after a failed parse is never taken. */
  lemma CandidateParses(lower: string, attempt: nat, suffix: string)
    requires IsSuffix(suffix)
    ensures ParseSlug(Candidate(SlugOf(lower), attempt, suffix)) == Slugged(Candidate(SlugOf(lower), attempt, suffix))
    ensures Clean(Candidate(SlugOf(lower), attempt, suffix))
  {
    SlugIsClean(lower);
    var base := SlugOf(lower);
    var c := base + "-" + suffix;
    forall i | |base| < i < |c| ensures Alnum(c[i]) { assert c[i] == suffix[i - |base| - 1]; }
    assert c[|base|] == '-' && forall i :: 0 <= i < |base| ==> c[i] == base[i];
  }

  // ----- the loops

  /** The suggested text reduced to a slug: the words of the input joined by single dashes, capped at 50 characters. */
  method SanitizeSlug(lower: string) returns (out: string)
    ensures out == SlugOf(lower)
  {
    out := "";
    var lastDash := false;
    for i := 0 to |lower|
      invariant lastDash == EndsDash(out)
      invariant out == Joined(lower[..i]) + if lastDash then "-" else ""
      invariant lastDash ==> Joined(lower[..i]) != []
      invariant out != [] ==> lastDash == !EndsAlnum(lower[..i])
    {
      var c := lower[i];
      assert lower[..i + 1] == lower[..i] + [c];
      JoinedStep(lower[..i], c);
      JoinedIsClean(lower[..i]);
      if Alnum(c) {
        out := out + [c];
        lastDash := false;
      } else if !lastDash && out != [] {
        out := out + "-";
        lastDash := true;
      }
    }
    assert lower[..|lower|] == lower;
    JoinedIsClean(lower);
    JoinedEmpty(lower);
    out := DropDashes(out);
    assert out == Joined(lower);
    if out == [] { out := "org"; }
    if |out| > MAX_BASE { out := DropDashes(out[..MAX_BASE]); }
  }

  method DropDashes(s: string) returns (out: string)
    ensures out == StripDashes(s)
  {
    out := s;
    while EndsDash(out)
      invariant StripDashes(out) == StripDashes(s)
      decreases |out|
    {
      out := out[..|out| - 1];
    }
  }

  datatype Insert = Inserted | Clash | Failed

  datatype Minted = NewOrg(slug: string) | NoUniqueSlug | ParseFailed(error: ParseError) | InsertFailed

  /**
   The retry loop. `suffix(k)` is the random suffix drawn for attempt k and `insert(k, s)` the outcome of trying
   to insert slug s at attempt k. `tried` lists the slugs an insert was attempted with.
   */
  method CreatePersonalOrg(lower: string, suffix: nat -> string, insert: (nat, string) -> Insert)
    returns (result: Minted, tried: seq<string>)
    requires forall k :: IsSuffix(suffix(k))
    ensures 1 <= |tried| <= 6
    ensures forall k :: 0 <= k < |tried| ==>
              && tried[k] == (if k == 0 then SlugOf(lower) else SlugOf(lower) + "-" + suffix(k))
              && Clean(tried[k]) && |tried[k]| <= 63
    ensures forall k :: 0 <= k < |tried| - 1 ==> insert(k, tried[k]) == Clash
    ensures var last := |tried| - 1;
            match insert(last, tried[last])
            case Inserted => result == NewOrg(tried[last])
            case Failed => result == InsertFailed
            case Clash => result == NoUniqueSlug && last == 5
  {
    var base := SanitizeSlug(lower);
    var attempt := 0;
    tried := [];
    while true
      invariant attempt == |tried| <= MAX_RETRIES
      invariant forall k :: 0 <= k < |tried| ==>
                  && tried[k] == Candidate(base, k, suffix(k)) && Clean(tried[k]) && |tried[k]| <= MAX_SLUG
                  && insert(k, tried[k]) == Clash
      decreases MAX_RETRIES - attempt
    {
      var candidate := Candidate(base, attempt, suffix(attempt));
      CandidateParses(lower, attempt, suffix(attempt));
      var parsed := ParseSlug(candidate);
      assert parsed.Slugged?; // so neither the retry nor the error arm for a failed parse is reached
      tried := tried + [parsed.text];
      match insert(attempt, parsed.text) {
        case Inserted => return NewOrg(parsed.text), tried;
        case Failed => return InsertFailed, tried;
        case Clash =>
          if attempt >= MAX_RETRIES { return NoUniqueSlug, tried; }
          attempt := attempt + 1;
      }
    }
  }
}
