/**
 * Validation and time utilities of the file-sharing service: the size bound,
 * the MIME-type block list, the filename sanitiser, the 48-hour expiry and
 * the "time remaining" label. Every clock read becomes an explicit `now`
 * parameter (milliseconds since the epoch).
 */
module Utils {

  // ---------------------------------------------------------------------
  // Size and type validation
  // ---------------------------------------------------------------------

  const BytesPerMB: int := 1024 * 1024
  const DefaultMaxSizeMB: int := 100

  /** A file is accepted when it is non-empty and at most `maxSizeMB` mebibytes. */
  function ValidateFileSize(size: int, maxSizeMB: int := DefaultMaxSizeMB): (ok: bool)
    ensures ok <==> 0 < size <= maxSizeMB * BytesPerMB
    ensures maxSizeMB <= 0 ==> !ok
  {
    var maxBytes := maxSizeMB * 1024 * 1024;
    size > 0 && size <= maxBytes
  }

  /** With the default limit, the bound is exactly 100 MiB = 104857600 bytes. */
  lemma DefaultSizeLimit(size: int)
    ensures ValidateFileSize(size) <==> 0 < size <= 104857600
    ensures ValidateFileSize(104857600) && !ValidateFileSize(104857601) && !ValidateFileSize(0)
  {
  }

  /** The four MIME types refused for security reasons (a block list, not an allow list). */
  const BlockedTypes: seq<string> := [
    "application/x-msdownload",
    "application/x-executable",
    "application/x-sh",
    "application/x-bat"
  ]

  function ValidateFileType(mimeType: string): (ok: bool)
    ensures ok <==> forall i :: 0 <= i < |BlockedTypes| ==> BlockedTypes[i] != mimeType
  {
    mimeType !in BlockedTypes
  }

  /** Exactly the four listed strings are refused; everything else passes, the empty type included. */
  lemma FileTypeBlockList(mimeType: string)
    ensures !ValidateFileType(mimeType) <==>
      mimeType == "application/x-msdownload" || mimeType == "application/x-executable" ||
      mimeType == "application/x-sh" || mimeType == "application/x-bat"
    ensures ValidateFileType("") && ValidateFileType("application/octet-stream")
  {
  }

  // ---------------------------------------------------------------------
  // Filename sanitising
  // ---------------------------------------------------------------------

  predicate IsSeparator(c: char) { c == '/' || c == '\\' }

  predicate IsUnsafe(c: char) { c in "<>:\"|?*" }

  /**
   * The characters String.prototype.trim removes: the ECMAScript WhiteSpace
   * code points (tab, vertical tab, form feed, space, no-break space, BOM and
   * the other space separators) and the four LineTerminator code points.
   */
  predicate IsWhitespace(c: char)
  {
    c == '\t' || c == '\n' || c == '\U{000B}' || c == '\U{000C}' || c == '\r' || c == ' ' ||
    c == '\U{00A0}' || c == '\U{1680}' || ('\U{2000}' <= c <= '\U{200A}') ||
    c == '\U{2028}' || c == '\U{2029}' || c == '\U{202F}' || c == '\U{205F}' ||
    c == '\U{3000}' || c == '\U{FEFF}'
  }

  /** A global replace of a one-character class by "": none of the class is left. */
  function Keep(s: string, drop: char -> bool): (r: string)
    ensures forall i :: 0 <= i < |r| ==> !drop(r[i])
  {
    if s == [] then []
    else (if drop(s[0]) then [] else [s[0]]) + Keep(s[1..], drop)
  }

  /** The other half of the replace: every character outside the class keeps its number of occurrences. */
  lemma {:induction false} KeepCounts(s: string, drop: char -> bool, c: char)
    requires !drop(c)
    ensures multiset(Keep(s, drop))[c] == multiset(s)[c]
  {
    if s != [] {
      assert s == [s[0]] + s[1..];
      KeepCounts(s[1..], drop, c);
    }
  }

  /**
   * A global replace of /\.\./ by "": the match is searched left to right and
   * matches never overlap, so "..." leaves one dot and "...." leaves none.
   */
  function RemoveDotDot(s: string): (r: string)
  {
    if |s| >= 2 && s[0] == '.' && s[1] == '.' then RemoveDotDot(s[2..])
    else if s == [] then []
    else [s[0]] + RemoveDotDot(s[1..])
  }

  /** The `..` removal takes away dots only: every other character keeps its number of occurrences. */
  lemma {:induction false} RemoveDotDotCounts(s: string, c: char)
    requires c != '.'
    ensures multiset(RemoveDotDot(s))[c] == multiset(s)[c]
    decreases |s|
  {
    if |s| >= 2 && s[0] == '.' && s[1] == '.' {
      assert s == [s[0], s[1]] + s[2..];
      RemoveDotDotCounts(s[2..], c);
    } else if s != [] {
      assert s == [s[0]] + s[1..];
      RemoveDotDotCounts(s[1..], c);
    }
  }

  function TrimStart(s: string): (r: string)
  {
    if s != [] && IsWhitespace(s[0]) then TrimStart(s[1..]) else s
  }

  function TrimEnd(s: string): (r: string)
  {
    if s != [] && IsWhitespace(s[|s| - 1]) then TrimEnd(s[..|s| - 1]) else s
  }

  /** Trimming takes away whitespace only: every other character keeps its number of occurrences. */
  lemma {:induction false} TrimCounts(s: string, c: char)
    requires !IsWhitespace(c)
    ensures multiset(TrimStart(s))[c] == multiset(s)[c]
    ensures multiset(TrimEnd(s))[c] == multiset(s)[c]
  {
    if s != [] {
      assert s == [s[0]] + s[1..];
      assert s == s[..|s| - 1] + [s[|s| - 1]];
      TrimCounts(s[1..], c);
      TrimCounts(s[..|s| - 1], c);
    }
  }

  function Trim(s: string): (r: string)
  {
    TrimEnd(TrimStart(s))
  }

  /** The three replace passes of the sanitiser, before the trim. */
  function SanitizePasses(filename: string): string
  {
    Keep(RemoveDotDot(Keep(filename, IsSeparator)), IsUnsafe)
  }

  /** A character that no pass of the sanitiser removes. */
  predicate IsOrdinary(c: char)
  {
    !IsSeparator(c) && !IsUnsafe(c) && c != '.' && !IsWhitespace(c)
  }

  /**
   * The sanitiser only deletes: its output is a subsequence of the input, no
   * longer than it, without whitespace at either end, and free of path
   * separators and of the characters < > : " | ? *.
   */
  function SanitizeFilename(filename: string): (r: string)
    ensures IsSubsequence(r, filename)
    ensures |r| <= |filename|
    ensures r == [] || (!IsWhitespace(r[0]) && !IsWhitespace(r[|r| - 1]))
    ensures forall i :: 0 <= i < |r| ==> !IsSeparator(r[i]) && !IsUnsafe(r[i])
  {
    SanitizeSteps(filename);
    Trim(SanitizePasses(filename))
  }

  /** `a` is obtained from `b` by deleting characters (greedy matching). */
  predicate IsSubsequence(a: string, b: string)
    decreases |b|
  {
    if a == [] then true
    else if b == [] then false
    else if a[0] == b[0] then IsSubsequence(a[1..], b[1..])
    else IsSubsequence(a, b[1..])
  }

  predicate HasDotDot(s: string)
  {
    exists i :: 0 <= i < |s| - 1 && s[i] == '.' && s[i + 1] == '.'
  }

  lemma {:induction false} SubsequenceBounds(a: string, b: string)
    requires IsSubsequence(a, b)
    ensures |a| <= |b|
    ensures forall i :: 0 <= i < |a| ==> a[i] in b
    decreases |b|
  {
    if a != [] {
      if a[0] == b[0] {
        SubsequenceBounds(a[1..], b[1..]);
        forall i | 0 <= i < |a| ensures a[i] in b {
          if i > 0 { assert a[1..][i - 1] == a[i]; assert b[1..] <= b[1..]; assert a[i] in b[1..]; }
        }
      } else {
        SubsequenceBounds(a, b[1..]);
      }
    }
  }

  lemma {:induction false} SubsequenceDropFirst(a: string, b: string)
    requires a != [] && IsSubsequence(a, b)
    ensures IsSubsequence(a[1..], b)
    decreases |b|, 0
  {
    if a[0] == b[0] {
      SubsequenceExtend(a[1..], b[1..], b[0]);
    } else {
      SubsequenceDropFirst(a, b[1..]);
      SubsequenceExtend(a[1..], b[1..], b[0]);
    }
  }

  lemma {:induction false} SubsequenceExtend(a: string, b: string, c: char)
    requires IsSubsequence(a, b)
    ensures IsSubsequence(a, [c] + b)
    decreases |b|, 1
  {
    assert ([c] + b)[1..] == b;
    if a != [] && a[0] == c {
      SubsequenceDropFirst(a, b);
    }
  }

  lemma {:induction false} SubsequenceTransitive(a: string, b: string, c: string)
    requires IsSubsequence(a, b) && IsSubsequence(b, c)
    ensures IsSubsequence(a, c)
    decreases |c|
  {
    if a == [] || b == [] {
    } else if b[0] == c[0] {
      if a[0] == b[0] {
        SubsequenceTransitive(a[1..], b[1..], c[1..]);
      } else {
        SubsequenceTransitive(a, b[1..], c[1..]);
      }
    } else {
      SubsequenceTransitive(a, b, c[1..]);
      assert c == [c[0]] + c[1..];
      SubsequenceExtend(a, c[1..], c[0]);
    }
  }

  lemma {:induction false} KeepIsSubsequence(s: string, drop: char -> bool)
    ensures IsSubsequence(Keep(s, drop), s)
  {
    if s != [] {
      KeepIsSubsequence(s[1..], drop);
      if drop(s[0]) {
        assert s == [s[0]] + s[1..];
        assert Keep(s, drop) == Keep(s[1..], drop);
        SubsequenceExtend(Keep(s[1..], drop), s[1..], s[0]);
      } else {
        assert ([s[0]] + Keep(s[1..], drop))[1..] == Keep(s[1..], drop);
      }
    }
  }

  lemma {:induction false} RemoveDotDotIsSubsequence(s: string)
    ensures IsSubsequence(RemoveDotDot(s), s)
    decreases |s|
  {
    if |s| >= 2 && s[0] == '.' && s[1] == '.' {
      RemoveDotDotIsSubsequence(s[2..]);
      assert s[1..] == [s[1]] + s[2..];
      SubsequenceExtend(RemoveDotDot(s[2..]), s[2..], s[1]);
      assert s == [s[0]] + s[1..];
      SubsequenceExtend(RemoveDotDot(s[2..]), s[1..], s[0]);
    } else if s != [] {
      RemoveDotDotIsSubsequence(s[1..]);
      assert ([s[0]] + RemoveDotDot(s[1..]))[1..] == RemoveDotDot(s[1..]);
    }
  }

  lemma {:induction false} TrimStartIsSuffix(s: string)
    ensures |TrimStart(s)| <= |s| && TrimStart(s) == s[|s| - |TrimStart(s)|..]
    ensures TrimStart(s) == [] || !IsWhitespace(TrimStart(s)[0])
  {
    if s != [] && IsWhitespace(s[0]) {
      TrimStartIsSuffix(s[1..]);
    }
  }

  lemma {:induction false} TrimEndIsPrefix(s: string)
    ensures |TrimEnd(s)| <= |s| && TrimEnd(s) == s[..|TrimEnd(s)|]
    ensures TrimEnd(s) == [] || !IsWhitespace(TrimEnd(s)[|TrimEnd(s)| - 1])
  {
    if s != [] && IsWhitespace(s[|s| - 1]) {
      var t := s[..|s| - 1];
      TrimEndIsPrefix(t);
      assert TrimEnd(s) == TrimEnd(t);
      assert t[..|TrimEnd(t)|] == s[..|TrimEnd(t)|];
    }
  }

  lemma {:induction false} SliceIsSubsequence(s: string, i: nat, j: nat)
    requires i <= j <= |s|
    ensures IsSubsequence(s[i..j], s)
    decreases |s|
  {
    if i == j {
    } else if i == 0 {
      assert s[i..j][1..] == s[1..][0..j - 1];
      SliceIsSubsequence(s[1..], 0, j - 1);
    } else {
      assert s[i..j] == s[1..][i - 1..j - 1];
      SliceIsSubsequence(s[1..], i - 1, j - 1);
      assert s == [s[0]] + s[1..];
      SubsequenceExtend(s[i..j], s[1..], s[0]);
    }
  }

  /** Trimming keeps a contiguous middle part with no whitespace at either end. */
  lemma TrimShape(s: string)
    ensures IsSubsequence(Trim(s), s)
    ensures Trim(s) == [] || (!IsWhitespace(Trim(s)[0]) && !IsWhitespace(Trim(s)[|Trim(s)| - 1]))
  {
    var t := TrimStart(s);
    TrimStartIsSuffix(s);
    TrimEndIsPrefix(t);
    SliceIsSubsequence(s, |s| - |t|, |s|);
    assert s[|s| - |t|..|s|] == t;
    SliceIsSubsequence(t, 0, |Trim(s)|);
    assert t[0..|Trim(s)|] == Trim(s);
    SubsequenceTransitive(Trim(s), t, s);
  }

  /** Each pass only deletes, and the trim takes away whitespace at the ends. */
  lemma SanitizeSteps(filename: string)
    ensures var r := Trim(SanitizePasses(filename));
      && IsSubsequence(r, filename)
      && |r| <= |filename|
      && (r == [] || (!IsWhitespace(r[0]) && !IsWhitespace(r[|r| - 1])))
      && forall i :: 0 <= i < |r| ==> !IsSeparator(r[i]) && !IsUnsafe(r[i])
  {
    var p1 := Keep(filename, IsSeparator);
    var p2 := RemoveDotDot(p1);
    var p3 := Keep(p2, IsUnsafe);
    var r := Trim(p3);
    KeepIsSubsequence(filename, IsSeparator);
    RemoveDotDotIsSubsequence(p1);
    KeepIsSubsequence(p2, IsUnsafe);
    TrimShape(p3);
    SubsequenceTransitive(r, p3, p2);
    SubsequenceTransitive(r, p2, p1);
    SubsequenceTransitive(r, p1, filename);
    SubsequenceBounds(r, filename);
    SubsequenceBounds(r, p3);
    SubsequenceBounds(r, p1);
  }

  lemma {:induction false} RemoveDotDotKeepsHead(s: string)
    requires s != [] && s[0] != '.'
    ensures RemoveDotDot(s) != [] && RemoveDotDot(s)[0] == s[0]
  {
  }

  /** The second pass leaves no ".." behind. */
  lemma {:induction false} RemoveDotDotLeavesNoDotDot(s: string)
    ensures !HasDotDot(RemoveDotDot(s))
    decreases |s|
  {
    if |s| >= 2 && s[0] == '.' && s[1] == '.' {
      RemoveDotDotLeavesNoDotDot(s[2..]);
    } else if s != [] {
      var rest := RemoveDotDot(s[1..]);
      RemoveDotDotLeavesNoDotDot(s[1..]);
      var r := [s[0]] + rest;
      if s[0] == '.' && rest != [] {
        RemoveDotDotKeepsHead(s[1..]);
      }
      forall i | 0 <= i < |r| - 1 ensures !(r[i] == '.' && r[i + 1] == '.') {
        if i > 0 { assert r[i] == rest[i - 1] && r[i + 1] == rest[i]; }
      }
    }
  }

  /** Every ordinary character survives sanitising, as often as it occurs in the input. */
  lemma SanitizeKeepsOrdinary(filename: string, c: char)
    requires IsOrdinary(c)
    ensures multiset(SanitizeFilename(filename))[c] == multiset(filename)[c]
  {
    var p1 := Keep(filename, IsSeparator);
    var p2 := RemoveDotDot(p1);
    var p3 := Keep(p2, IsUnsafe);
    KeepCounts(filename, IsSeparator, c);
    RemoveDotDotCounts(p1, c);
    KeepCounts(p2, IsUnsafe, c);
    TrimCounts(p3, c);
    TrimCounts(TrimStart(p3), c);
  }

  lemma {:induction false} KeepNothingDropped(s: string, drop: char -> bool)
    requires forall i :: 0 <= i < |s| ==> !drop(s[i])
    ensures Keep(s, drop) == s
  {
    if s != [] {
      KeepNothingDropped(s[1..], drop);
    }
  }

  lemma {:induction false} RemoveDotDotWithoutDotDot(s: string)
    requires !HasDotDot(s)
    ensures RemoveDotDot(s) == s
    decreases |s|
  {
    if s != [] {
      assert !(|s| >= 2 && s[0] == '.' && s[1] == '.');
      forall i | 0 <= i < |s[1..]| - 1 ensures !(s[1..][i] == '.' && s[1..][i + 1] == '.') {
        assert s[1..][i] == s[i + 1] && s[1..][i + 1] == s[i + 2];
      }
      RemoveDotDotWithoutDotDot(s[1..]);
    }
  }

  /**
   * A name that is already clean (no separator, no unsafe character, no ".."
   * and no whitespace at either end) comes back unchanged.
   */
  lemma SanitizeKeepsCleanName(s: string)
    requires forall i :: 0 <= i < |s| ==> !IsSeparator(s[i]) && !IsUnsafe(s[i])
    requires !HasDotDot(s)
    requires s == [] || (!IsWhitespace(s[0]) && !IsWhitespace(s[|s| - 1]))
    ensures SanitizeFilename(s) == s
  {
    KeepNothingDropped(s, IsSeparator);
    RemoveDotDotWithoutDotDot(s);
    KeepNothingDropped(s, IsUnsafe);
    assert TrimStart(s) == s;
  }

  /**
   * The third pass can join two dots that a removed character kept apart, so
   * the sanitised name may still contain "..".
   */
  lemma SanitizeCanLeaveDotDot()
    ensures SanitizeFilename(".<.") == ".."
    ensures HasDotDot(SanitizeFilename(".<."))
  {
    PassesJoinDots();
    TrimKeepsDots();
    assert ".."[0] == '.' && ".."[1] == '.';
  }

  /** The passes on ".<.": the first two keep it whole, the third drops '<'. */
  lemma PassesJoinDots()
    ensures SanitizePasses(".<.") == ".."
  {
    SeparatorPassOnExample();
    DotDotPassOnExample();
    UnsafePassOnExample();
  }

  lemma SeparatorPassOnExample()
    ensures Keep(".<.", IsSeparator) == ".<."
  {
    KeepNothingDropped(".<.", IsSeparator);
  }

  lemma DotDotPassOnExample()
    ensures RemoveDotDot(".<.") == ".<."
  {
    assert ".<."[1] == '<';
    RemoveDotDotWithoutDotDot(".<.");
  }

  lemma UnsafePassOnExample()
    ensures Keep(".<.", IsUnsafe) == ".."
  {
    UnsafePassOnTail();
    assert ".<."[1..] == "<.";
    assert Keep(".<.", IsUnsafe) == ['.'] + ".";
  }

  lemma UnsafePassOnTail()
    ensures Keep("<.", IsUnsafe) == "."
  {
    assert "<."[1..] == "." && "."[1..] == [];
    assert IsUnsafe('<');
    assert Keep(".", IsUnsafe) == ['.'] + [];
  }

  /** Trimming ".." changes nothing. */
  lemma TrimKeepsDots()
    ensures Trim("..") == ".."
  {
    assert ".."[0] == '.' && ".."[|".."| - 1] == '.';
    assert TrimStart("..") == "..";
  }

  /** Sanitising twice is not the same as sanitising once. */
  lemma SanitizeNotIdempotent()
    ensures SanitizeFilename(SanitizeFilename(".<.")) != SanitizeFilename(".<.")
  {
    SanitizeCanLeaveDotDot();
    PassesEraseDotDot();
    assert SanitizeFilename("..") == Trim([]);
  }

  /** The passes erase "..": the second pass removes it whole. */
  lemma PassesEraseDotDot()
    ensures SanitizePasses("..") == []
  {
    KeepNothingDropped("..", IsSeparator);
    DotDotPassErasesDotDot();
    var separated := Keep("..", IsSeparator);
    assert separated == "..";
    assert RemoveDotDot(separated) == [];
    assert Keep([], IsUnsafe) == [];
  }

  lemma DotDotPassErasesDotDot()
    ensures RemoveDotDot("..") == []
  {
    assert ".."[2..] == [];
  }

  // ---------------------------------------------------------------------
  // Expiry
  // ---------------------------------------------------------------------

  /** 48 hours in milliseconds. */
  const ExpiryWindowMs: int := 48 * 60 * 60 * 1000

  /** The expiry of a file stored at `now`: 172800000 ms later, and not yet expired at `now`. */
  function CalculateExpirationDate(now: int): (expiresAt: int)
    ensures expiresAt - now == 172800000
    ensures !IsExpired(expiresAt, now)
  {
    now + ExpiryWindowMs
  }

  /**
   * A timestamp is expired once the clock is strictly past it; an expired
   * timestamp is always labelled "Expired".
   */
  function IsExpired(expiresAt: int, now: int): (expired: bool)
    ensures expired ==> FormatTimeRemaining(expiresAt, now) == "Expired"
  {
    now > expiresAt
  }

  /** An expiry computed at `created` holds for 172800000 ms, inclusive, and lapses right after. */
  lemma ExpiryLifetime(created: int, t: int)
    ensures CalculateExpirationDate(created) == created + 172800000
    ensures IsExpired(CalculateExpirationDate(created), t) <==> t > created + 172800000
    ensures created <= t ==> (IsExpired(CalculateExpirationDate(created), t) <==> t - created > 172800000)
  {
  }

  // ---------------------------------------------------------------------
  // Decimal rendering, as a template literal prints a non-negative integer
  // ---------------------------------------------------------------------

  predicate IsDigit(c: char) { '0' <= c <= '9' }

  function DigitChar(d: nat): (c: char)
    requires d < 10
    ensures IsDigit(c) && c as int - '0' as int == d
  {
    ('0' as int + d) as char
  }

  /** The decimal digits of `n`, most significant first, without leading zeros. */
  function NatToString(n: nat): (s: string)
    ensures |s| >= 1
    ensures forall i :: 0 <= i < |s| ==> IsDigit(s[i])
    ensures s[0] == '0' ==> n == 0
    decreases n
  {
    if n < 10 then [DigitChar(n)] else NatToString(n / 10) + [DigitChar(n % 10)]
  }

  /** The number a string of decimal digits denotes. */
  function DigitsValue(s: string): nat
    requires forall i :: 0 <= i < |s| ==> IsDigit(s[i])
  {
    if s == [] then 0
    else
      assert IsDigit(s[|s| - 1]);
      DigitsValue(s[..|s| - 1]) * 10 + (s[|s| - 1] as int - '0' as int)
  }

  /** Reading the rendered digits back gives the number: rendering is injective. */
  lemma {:induction false} NatToStringRoundTrip(n: nat)
    ensures DigitsValue(NatToString(n)) == n
    decreases n
  {
    var s := NatToString(n);
    if n >= 10 {
      NatToStringRoundTrip(n / 10);
      assert s[..|s| - 1] == NatToString(n / 10);
    }
  }

  // ---------------------------------------------------------------------
  // Time remaining
  // ---------------------------------------------------------------------

  const HourMs: int := 1000 * 60 * 60
  const MinuteMs: int := 1000 * 60

  /**
   * The label shown for an expiry: "Expired" once no time is left, whole days
   * and hours when more than 24 whole hours remain, else whole hours and minutes.
   * Dividing a positive difference, Math.floor agrees with Dafny's division.
   */
  function FormatTimeRemaining(expiresAt: int, now: int): (text: string)
    ensures text == "Expired" <==> expiresAt - now <= 0
  {
    var diff := expiresAt - now;
    if diff <= 0 then "Expired"
    else
      var hours := diff / HourMs;
      var minutes := (diff % HourMs) / MinuteMs;
      // a rendered number starts with a digit, so no label but the first is "Expired"
      if hours > 24 then
        var shown := NatToString(hours / 24) + "d " + NatToString(hours % 24) + "h";
        assert shown[0] == NatToString(hours / 24)[0];
        shown
      else
        var shown := NatToString(hours) + "h " + NatToString(minutes) + "m";
        assert shown[0] == NatToString(hours)[0];
        shown
  }

  /**
   * More than 24 whole hours left: the label is "{days}d {hours}h" where the
   * two numbers split the whole hours left, with hours in [0, 23].
   */
  lemma FormatDaysHours(expiresAt: int, now: int) returns (days: nat, hours: nat)
    requires expiresAt - now > 0 && (expiresAt - now) / HourMs > 24
    ensures FormatTimeRemaining(expiresAt, now) == NatToString(days) + "d " + NatToString(hours) + "h"
    ensures days >= 1 && hours < 24
    ensures (days * 24 + hours) * HourMs <= expiresAt - now < (days * 24 + hours + 1) * HourMs
  {
    var whole := (expiresAt - now) / HourMs;
    days, hours := whole / 24, whole % 24;
  }

  /**
   * Up to 24 whole hours left: the label is "{hours}h {minutes}m" where the
   * two numbers are the whole hours and whole minutes left, with minutes in [0, 59].
   */
  lemma FormatHoursMinutes(expiresAt: int, now: int) returns (hours: nat, minutes: nat)
    requires expiresAt - now > 0 && (expiresAt - now) / HourMs <= 24
    ensures FormatTimeRemaining(expiresAt, now) == NatToString(hours) + "h " + NatToString(minutes) + "m"
    ensures hours <= 24 && minutes < 60
    ensures hours * HourMs + minutes * MinuteMs <= expiresAt - now < hours * HourMs + (minutes + 1) * MinuteMs
  {
    var diff := expiresAt - now;
    hours, minutes := diff / HourMs, (diff % HourMs) / MinuteMs;
  }

  /** Exactly one day left is still shown in hours and minutes, as "24h 0m". */
  lemma FormatExactlyOneDay(now: int)
    ensures FormatTimeRemaining(now + 24 * HourMs, now) == "24h 0m"
  {
  }
}
