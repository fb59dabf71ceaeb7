/** Email identity, server copy (functions/utils/normalizeEmail.js):
    normalization used as the key of the email index, and the lightweight
    validity test `/^[^\s@]+@[^\s@]+\.[^\s@]+$/`. */
module ServerEmail {
  import opened Common
  import opened JsString

  /** `email.trim().toLowerCase()`. */
  function Canonical(email: string): (t: string)
    ensures IsLower(t)
  {
    Lower(Trim(email))
  }

  /** `t.split('@')` has exactly two parts. */
  predicate SingleAt(t: string)
  {
    Count(t, '@') == 1
  }

  /** The first part of `t.split('@')`. */
  function LocalPart(t: string): (l: string)
    ensures '@' !in l
  {
    BeforeFirst(t, '@')
  }

  /** The second part of `t.split('@')` when there are exactly two. */
  function DomainPart(t: string): string
    requires SingleAt(t)
  {
    t[IndexOf(t, '@') + 1..]
  }

  predicate IsGmailDomain(domain: string)
  {
    domain == "gmail.com" || domain == "googlemail.com"
  }

  /** `local.split('+')[0].replace(/\./g, '')`. */
  function GmailLocal(local: string): (b: string)
    ensures '.' !in b && '+' !in b
    ensures forall c :: c in b ==> c in local
  {
    RemoveAll(BeforeFirst(local, '+'), '.')
  }

  /** Everything `normalizeEmail` does after trimming and lower-casing. */
  function NormalizeCanonical(t: string): string
  {
    if !SingleAt(t) then t
    else if IsGmailDomain(DomainPart(t)) then GmailLocal(LocalPart(t)) + "@gmail.com"
    else t
  }

  /** `normalizeEmail(email)`, as written. */
  function NormalizeEmail(email: Option<string>): (r: string)
    ensures email.None? || email.value == "" ==> r == ""
  {
    if email.None? || email.value == "" then ""
    else NormalizeCanonical(Canonical(email.value))
  }

  /** A string of non-space characters with exactly one `@`, something before
      it, and after it a part with a `.` that is neither its first nor its
      last character. */
  predicate EmailPattern(s: string)
  {
    var at := IndexOf(s, '@');
    && SingleAt(s)
    && 0 < at
    && (forall i :: 0 <= i < |s| ==> !IsSpace(s[i]))
    && (exists k :: at + 1 < k < |s| - 1 && s[k] == '.')
  }

  /** `isValidEmail(email)`. */
  predicate IsValidEmail(email: Option<string>)
  {
    email.Some? && email.value != "" && EmailPattern(Trim(email.value))
  }

  /** The regular expression `^[^\s@]+@[^\s@]+\.[^\s@]+$` read literally:
      `s` is `a + "@" + b + "." + c` with `a`, `b`, `c` non-empty runs of
      characters that are neither white space nor `@`. */
  ghost predicate MatchesEmailRegex(s: string)
  {
    exists i, j ::
      && 0 < i && i + 1 < j && j + 1 < |s|
      && s[i] == '@' && s[j] == '.'
      && forall k :: 0 <= k < |s| && k != i ==> !IsSpace(s[k]) && s[k] != '@'
  }

  lemma {:induction false} CountOne(s: string, i: nat)
    requires i < |s| && s[i] == '@'
    requires forall k :: 0 <= k < |s| && k != i ==> s[k] != '@'
    ensures Count(s, '@') == 1 && IndexOf(s, '@') == i
  {
    assert s == s[..i] + [s[i]] + s[i + 1..];
    CountAppend(s[..i] + [s[i]], s[i + 1..], '@');
    CountAppend(s[..i], [s[i]], '@');
    assert '@' !in s[..i];
    assert '@' !in s[i + 1..];
  }

  lemma {:induction false} CountOneUnique(s: string, k: nat)
    requires Count(s, '@') == 1 && k < |s| && s[k] == '@'
    ensures k == IndexOf(s, '@')
  {
    var at := IndexOf(s, '@');
    if k > at {
      assert s[..k][at] == '@';
      assert s[k..][0] == '@';
      assert s == s[..k] + s[k..];
      CountAppend(s[..k], s[k..], '@');
    }
  }

  /** The direct test agrees with the regular expression on every string. */
  lemma EmailPatternIsRegex(s: string)
    ensures EmailPattern(s) <==> MatchesEmailRegex(s)
  {
    if EmailPattern(s) {
      var at := IndexOf(s, '@');
      var k :| at + 1 < k < |s| - 1 && s[k] == '.';
      forall m | 0 <= m < |s| && m != at
        ensures !IsSpace(s[m]) && s[m] != '@'
      {
        if s[m] == '@' {
          CountOneUnique(s, m);
        }
      }
      assert 0 < at && at + 1 < k && k + 1 < |s| && s[at] == '@' && s[k] == '.';
    }
    if MatchesEmailRegex(s) {
      var i, j :| && 0 < i && i + 1 < j && j + 1 < |s|
                  && s[i] == '@' && s[j] == '.'
                  && forall k :: 0 <= k < |s| && k != i ==> !IsSpace(s[k]) && s[k] != '@';
      CountOne(s, i);
      assert forall m :: 0 <= m < |s| ==> !IsSpace(s[m]);
    }
  }

  /** `trim` on `local@domain` only drops the white space before `local`
      when `domain` does not end with white space. */
  lemma TrimAroundAt(local: string, domain: string)
    requires |domain| > 0 && !IsSpace(domain[|domain| - 1])
    ensures Trim(local + "@" + domain) == TrimStart(local) + "@" + domain
  {
    assert local + "@" + domain == local + ("@" + domain);
    TrimStartAppend(local, "@" + domain);
    assert TrimStart(local) + ("@" + domain) == TrimStart(local) + "@" + domain;
    TrimEndOfTrimmed(TrimStart(local) + "@" + domain);
  }

  /** Lower-casing `l@domain` for a lower-case `domain`. */
  lemma LowerAroundAt(l: string, domain: string)
    requires IsLower(domain)
    ensures Lower(l + "@" + domain) == Lower(l) + "@" + domain
  {
    LowerAppend(l + "@", domain);
    LowerAppend(l, "@");
    LowerOfLower(domain);
  }

  /** `l@domain` with no other `@` splits into `l` and `domain`. */
  lemma {:induction false} SplitAt(l: string, domain: string)
    requires '@' !in l && '@' !in domain
    ensures var t := l + "@" + domain;
      SingleAt(t) && LocalPart(t) == l && DomainPart(t) == domain
  {
    var t := l + "@" + domain;
    forall k | 0 <= k < |t| && k != |l| ensures t[k] != '@' {
      if k < |l| {
        assert t[k] == l[k];
      } else {
        assert t[k] == domain[k - |l| - 1];
      }
    }
    CountOne(t, |l|);
    assert t[..|l|] == l;
    assert t[|l| + 1..] == domain;
  }

  /** Neither trimming nor lower-casing introduces an `@`. */
  lemma NoAtAfterCanonical(s: string)
    requires '@' !in s
    ensures '@' !in Lower(TrimStart(s))
  {
    var t := TrimStart(s);
    var l := Lower(t);
    forall i | 0 <= i < |l| ensures l[i] != '@' {
      assert t[i] == s[|s| - |t| + i];
    }
  }

  /** Splitting `local@domain` after trimming and lower-casing: the local part
      loses its leading white space and is lower-cased; a lower-case domain
      without white space at its end is kept. */
  lemma CanonicalSplit(local: string, domain: string)
    requires '@' !in local && '@' !in domain
    requires |domain| > 0 && IsLower(domain) && !IsSpace(domain[|domain| - 1])
    ensures var t := Canonical(local + "@" + domain);
      && t == Lower(TrimStart(local)) + "@" + domain
      && SingleAt(t)
      && LocalPart(t) == Lower(TrimStart(local))
      && DomainPart(t) == domain
  {
    TrimAroundAt(local, domain);
    LowerAroundAt(TrimStart(local), domain);
    NoAtAfterCanonical(local);
    SplitAt(Lower(TrimStart(local)), domain);
  }

  /** The two Gmail domains are lower-case, free of `@` and end in a
      letter. */
  lemma GmailDomainFacts(domain: string)
    requires IsGmailDomain(domain)
    ensures |domain| > 0 && IsLower(domain) && '@' !in domain && !IsSpace(domain[|domain| - 1])
  {
    if domain == "gmail.com" {
      assert forall i :: 0 <= i < |domain| ==> IsLowerChar(domain[i]) && domain[i] != '@';
    } else {
      assert forall i :: 0 <= i < |domain| ==> IsLowerChar(domain[i]) && domain[i] != '@';
    }
  }

  /** A Gmail or Googlemail address normalizes to its local part without
      leading white space, cut at the first `+`, with every `.` removed, at
      `gmail.com`. */
  lemma GmailAddress(local: string, domain: string)
    requires '@' !in local && IsGmailDomain(domain)
    ensures NormalizeEmail(Some(local + "@" + domain)) == GmailLocal(Lower(TrimStart(local))) + "@gmail.com"
  {
    GmailDomainFacts(domain);
    CanonicalSplit(local, domain);
    NormalizeGmail(local + "@" + domain);
  }

  /** An address whose canonical form has one `@` and a Gmail domain. */
  lemma NormalizeGmail(s: string)
    requires SingleAt(Canonical(s)) && IsGmailDomain(DomainPart(Canonical(s)))
    ensures NormalizeEmail(Some(s)) == GmailLocal(LocalPart(Canonical(s))) + "@gmail.com"
  {
    assert s != [];
  }

  /** So `x@googlemail.com` and `x@gmail.com` are the same person. */
  lemma GmailDomainsAgree(local: string)
    requires '@' !in local
    ensures NormalizeEmail(Some(local + "@googlemail.com")) == NormalizeEmail(Some(local + "@gmail.com"))
  {
    assert local + "@googlemail.com" == local + "@" + "googlemail.com";
    assert local + "@gmail.com" == local + "@" + "gmail.com";
    GmailAddress(local, "googlemail.com");
    GmailAddress(local, "gmail.com");
  }

  /** Any other domain keeps the local part, dots and `+` suffix included. */
  lemma OtherDomainAddress(local: string, domain: string)
    requires '@' !in local && '@' !in domain && !IsGmailDomain(domain)
    requires |domain| > 0 && IsLower(domain) && !IsSpace(domain[|domain| - 1])
    ensures NormalizeEmail(Some(local + "@" + domain)) == Lower(TrimStart(local)) + "@" + domain
  {
    CanonicalSplit(local, domain);
  }

  /** Without exactly one `@` the trimmed, lower-cased text is the result. */
  lemma NoSingleAtAddress(email: string)
    requires !SingleAt(Canonical(email))
    ensures NormalizeEmail(Some(email)) == Canonical(email)
    ensures Trimmed(NormalizeEmail(Some(email)))
  {
    if email != "" {
      LowerKeepsTrimmed(Trim(email));
    }
  }

  /** A lower-case local part without `.` or `+` is its own stripped
      form. */
  lemma GmailLocalFixed(l: string)
    requires IsLower(l) && '.' !in l && '+' !in l
    ensures GmailLocal(Lower(l)) == l
  {
    LowerOfLower(l);
    BeforeFirstAbsent(l, '+');
    RemoveAllAbsent(l, '.');
  }

  /** Dropping leading white space keeps only characters of `b`. */
  lemma TrimStartSubset(b: string)
    ensures forall c :: c in TrimStart(b) ==> c in b
  {
    var l := TrimStart(b);
    forall c | c in l ensures c in b {
      var i :| 0 <= i < |l| && l[i] == c;
      assert b[|b| - |l| + i] == c;
    }
  }

  /** A stripped Gmail local part `b` followed by `@gmail.com` normalizes to
      `b` without its leading white space. */
  lemma GmailResultNormalizes(b: string)
    requires IsLower(b) && '@' !in b && '.' !in b && '+' !in b
    ensures NormalizeEmail(Some(b + "@gmail.com")) == TrimStart(b) + "@gmail.com"
  {
    assert b + "@gmail.com" == b + "@" + "gmail.com";
    GmailAddress(b, "gmail.com");
    TrimStartSubset(b);
    GmailLocalFixed(TrimStart(b));
  }

  /** The stripped local part of a lower-case address is lower-case. */
  lemma GmailLocalOfLower(t: string)
    requires IsLower(t)
    ensures var b := GmailLocal(LocalPart(t));
      IsLower(b) && '@' !in b && '.' !in b && '+' !in b
  {
    var l := LocalPart(t);
    assert forall c :: c in l ==> c in t by {
      forall c | c in l ensures c in t {
        var i :| 0 <= i < |l| && l[i] == c;
        assert t[i] == c;
      }
    }
  }

  /** What `normalizeEmail` can return: either a trimmed lower-case text it
      maps to itself, or a stripped Gmail local part at `gmail.com`. */
  lemma NormalizeEmailShape(email: Option<string>) returns (gmail: bool, b: string)
    ensures var r := NormalizeEmail(email);
      if gmail then r == b + "@gmail.com" && IsLower(b) && '@' !in b && '.' !in b && '+' !in b
      else Trimmed(r) && IsLower(r) && NormalizeEmail(Some(r)) == r
  {
    var r := NormalizeEmail(email);
    if email.None? || email.value == "" {
      gmail, b := false, "";
      assert r == "";
    } else {
      var t := Canonical(email.value);
      LowerKeepsTrimmed(Trim(email.value));
      if SingleAt(t) && IsGmailDomain(DomainPart(t)) {
        gmail, b := true, GmailLocal(LocalPart(t));
        GmailLocalOfLower(t);
      } else {
        gmail, b := false, "";
        assert r == t;
        if t != "" {
          TrimOfTrimmed(t);
          LowerOfLower(t);
          assert Canonical(t) == t;
        }
      }
    }
  }

  /** Normalizing again changes nothing exactly when the first result does
      not start with white space; only a Gmail address whose local part,
      once stripped, starts with white space (`". x@gmail.com"`) breaks
      idempotence. */
  lemma NormalizeIdempotentIff(email: Option<string>)
    ensures var r := NormalizeEmail(email);
      NormalizeEmail(Some(r)) == r <==> (r == "" || !IsSpace(r[0]))
  {
    var r := NormalizeEmail(email);
    var gmail, b := NormalizeEmailShape(email);
    if gmail {
      GmailResultNormalizes(b);
      if b == [] || !IsSpace(b[0]) {
        TrimStartOfTrimmed(b);
        assert r[0] == (if b == [] then '@' else b[0]);
      } else {
        assert r[0] == b[0];
        assert |TrimStart(b)| < |b|;
        assert |NormalizeEmail(Some(r))| < |r|;
      }
    }
  }

  /** A Gmail local part made of a dot, a space and then text `x`: the
      first normalization removes the dot and leaves the space at the front,
      the second removes the space. */
  lemma DotSpaceLocal(x: string)
    requires IsLower(x) && '.' !in x && '+' !in x
    ensures GmailLocal(Lower(TrimStart(". " + x))) == " " + x
  {
    var local := ". " + x;
    assert local[0] == '.';
    TrimStartOfTrimmed(local);
    assert IsLower(local) by {
      forall i | 0 <= i < |local| ensures IsLowerChar(local[i]) {
        if i >= 2 {
          assert local[i] == x[i - 2];
        }
      }
    }
    LowerOfLower(local);
    assert '+' !in local by {
      forall i | 0 <= i < |local| ensures local[i] != '+' {
        if i >= 2 {
          assert local[i] == x[i - 2];
        }
      }
    }
    BeforeFirstAbsent(local, '+');
    assert RemoveAll(local, '.') == RemoveAll(local[1..], '.');
    assert local[1..] == " " + x;
    assert RemoveAll(" " + x, '.') == [' '] + RemoveAll((" " + x)[1..], '.');
    assert (" " + x)[1..] == x;
    RemoveAllAbsent(x, '.');
  }

  /** The first normalization of `". x@gmail.com"`. */
  lemma DotSpaceFirst(x: string)
    requires IsLower(x) && '@' !in x && '.' !in x && '+' !in x
    ensures NormalizeEmail(Some(". " + x + "@gmail.com")) == " " + x + "@gmail.com"
  {
    var local := ". " + x;
    assert ". " + x + "@gmail.com" == local + "@" + "gmail.com";
    assert '@' !in local by {
      forall i | 0 <= i < |local| ensures local[i] != '@' {
        if i >= 2 {
          assert local[i] == x[i - 2];
        }
      }
    }
    GmailAddress(local, "gmail.com");
    DotSpaceLocal(x);
  }

  /** The second normalization, of `" x@gmail.com"`. */
  lemma DotSpaceSecond(x: string)
    requires |x| > 0 && !IsSpace(x[0]) && IsLower(x) && '@' !in x && '.' !in x && '+' !in x
    ensures NormalizeEmail(Some(" " + x + "@gmail.com")) == x + "@gmail.com"
  {
    var b := " " + x;
    assert " " + x + "@gmail.com" == b + "@gmail.com";
    assert IsLower(b) && '@' !in b && '.' !in b && '+' !in b by {
      forall i | 0 <= i < |b| ensures IsLowerChar(b[i]) && b[i] !in "@.+" {
        if i >= 1 {
          assert b[i] == x[i - 1];
        }
      }
    }
    GmailResultNormalizes(b);
    assert b[1..] == x;
    TrimStartOfTrimmed(x);
  }

  lemma DotSpaceGmail(x: string)
    requires |x| > 0 && !IsSpace(x[0]) && IsLower(x) && '@' !in x && '.' !in x && '+' !in x
    ensures var first := NormalizeEmail(Some(". " + x + "@gmail.com"));
      && first == " " + x + "@gmail.com"
      && NormalizeEmail(Some(first)) == x + "@gmail.com"
      && NormalizeEmail(Some(first)) != first
  {
    DotSpaceFirst(x);
    DotSpaceSecond(x);
    assert |x + "@gmail.com"| < |" " + x + "@gmail.com"|;
  }

  /** So `normalizeEmail` is not idempotent: `". x@gmail.com"` normalizes to
      `" x@gmail.com"`, which normalizes to `"x@gmail.com"`. */
  lemma NormalizeNotIdempotent(x: string)
    requires x == "x"
    ensures var first := NormalizeEmail(Some(". " + x + "@gmail.com"));
      first == " " + x + "@gmail.com" && NormalizeEmail(Some(first)) != first
  {
    assert IsLower(x) && '@' !in x && '.' !in x && '+' !in x;
    DotSpaceGmail(x);
  }

  /** The evidently intended normalization: the result trimmed once more,
      which only matters for the Gmail branch. */
  function NormalizeEmailTrimmed(email: Option<string>): (r: string)
    ensures Trimmed(r)
  {
    Trim(NormalizeEmail(email))
  }

  /** It agrees with the code as written whenever that result does not
      start with white space. */
  lemma TrimmedAgreesWhenNoLeadingSpace(email: Option<string>)
    requires NormalizeEmail(email) == "" || !IsSpace(NormalizeEmail(email)[0])
    ensures NormalizeEmailTrimmed(email) == NormalizeEmail(email)
  {
    var r := NormalizeEmail(email);
    var gmail, b := NormalizeEmailShape(email);
    if gmail {
      assert r[|r| - 1] == 'm';
    }
    TrimOfTrimmed(r);
  }

  /** The corrected normalization is idempotent on every input. */
  lemma NormalizeEmailTrimmedIdempotent(email: Option<string>)
    ensures NormalizeEmailTrimmed(Some(NormalizeEmailTrimmed(email))) == NormalizeEmailTrimmed(email)
  {
    var r := NormalizeEmail(email);
    var gmail, b := NormalizeEmailShape(email);
    if gmail {
      var b' := TrimStart(b);
      assert "@gmail.com"[0] == '@';
      TrimStartAppend(b, "@gmail.com");
      assert "@gmail.com"[9] == 'm';
      TrimEndOfTrimmed(b' + "@gmail.com");
      assert Trim(r) == b' + "@gmail.com";
      assert forall c :: c in b' ==> c in b;
      GmailResultNormalizes(b');
      TrimStartOfTrimmed(b');
      TrimOfTrimmed(b' + "@gmail.com");
    } else {
      TrimOfTrimmed(r);
    }
  }
}

/** Email identity, client copy (src/utils/normalizeEmail.js): the same
    algorithm written again in the client code. */
module ClientEmail {
  import opened Common
  import opened JsString
  import ServerEmail

  /** `normalizeEmail(email)` of the client. */
  function NormalizeEmail(email: Option<string>): (r: string)
    ensures email.None? || email.value == "" ==> r == ""
  {
    if email.None? || email.value == "" then "" else Rewrite(Lower(Trim(email.value)))
  }

  /** The client's handling of the trimmed, lower-cased text. */
  function Rewrite(normalized: string): string
  {
    if Count(normalized, '@') != 1 then normalized
    else
      var at := IndexOf(normalized, '@');
      var local, domain := normalized[..at], normalized[at + 1..];
      if domain == "gmail.com" || domain == "googlemail.com"
      then RemoveAll(BeforeFirst(local, '+'), '.') + "@gmail.com"
      else normalized
  }

  /** `isValidEmail(email)` of the client. */
  predicate IsValidEmail(email: Option<string>)
  {
    if email.None? || email.value == "" then false
    else
      var s := Trim(email.value);
      var at := IndexOf(s, '@');
      && Count(s, '@') == 1
      && 0 < at
      && (forall i :: 0 <= i < |s| ==> !IsSpace(s[i]))
      && (exists k :: at + 1 < k < |s| - 1 && s[k] == '.')
  }

  /** Client and server normalize every input identically. */
  lemma NormalizeAgreesWithServer(email: Option<string>)
    ensures NormalizeEmail(email) == ServerEmail.NormalizeEmail(email)
  {
    if email.Some? && email.value != "" {
      var t := Lower(Trim(email.value));
      assert t == ServerEmail.Canonical(email.value);
      RewriteAgrees(t);
    }
  }

  lemma RewriteAgrees(t: string)
    ensures Rewrite(t) == ServerEmail.NormalizeCanonical(t)
  {
    if Count(t, '@') == 1 {
      var at := IndexOf(t, '@');
      assert t[..at] == ServerEmail.LocalPart(t);
      assert t[at + 1..] == ServerEmail.DomainPart(t);
    }
  }

  /** Client and server accept the same addresses. */
  lemma ValidAgreesWithServer(email: Option<string>)
    ensures IsValidEmail(email) == ServerEmail.IsValidEmail(email)
  {
  }
}
