/**
 * `AbstractHybridAuthResponse`: wraps a connected provider adapter, fetches
 * its profile once, exposes normalised getters, and logs the adapter out on
 * failure and at teardown.
 *
 * A PHP string is modelled as a `string` whose characters are its bytes.
 */
module Response {
  import opened Basics
  import opened Toolkit

  // ---------------------------------------------------------------------------
  // cleanString

  /** The bytes `cleanString` keeps: `[a-zA-Z0-9_]`. */
  predicate IsWordByte(c: char) {
    ('a' <= c <= 'z') || ('A' <= c <= 'Z') || ('0' <= c <= '9') || c == '_'
  }

  ghost predicate AllWordBytes(s: string) {
    forall i | 0 <= i < |s| :: IsWordByte(s[i])
  }

  /** How many bytes of `s` are word bytes. */
  ghost function WordByteCount(s: string): nat {
    if s == [] then 0 else (if IsWordByte(s[0]) then 1 else 0) + WordByteCount(s[1..])
  }

  /** `r` can be obtained from `s` by deleting bytes. */
  ghost predicate IsSubsequence(r: string, s: string)
    decreases |s|
  {
    r == [] || (s != [] && ((r[0] == s[0] && IsSubsequence(r[1..], s[1..])) || IsSubsequence(r, s[1..])))
  }

  /**
   * `cleanString`: `preg_replace('@[^a-zA-Z0-9_]@', '', $str)`, which deletes
   * every byte outside `[a-zA-Z0-9_]` (no `/u` modifier: byte by byte).
   */
  function CleanString(s: string): (r: string)
    ensures AllWordBytes(r)
    ensures |r| <= |s|
  {
    if s == [] then [] else (if IsWordByte(s[0]) then [s[0]] else []) + CleanString(s[1..])
  }

  /** The output keeps every word byte of the input, in order, and only those. */
  lemma {:induction false} CleanStringIsSubsequence(s: string)
    ensures IsSubsequence(CleanString(s), s)
    ensures |CleanString(s)| == WordByteCount(s)
  {
    if s != [] {
      CleanStringIsSubsequence(s[1..]);
      var r := CleanString(s);
      if IsWordByte(s[0]) {
        assert r[0] == s[0] && r[1..] == CleanString(s[1..]);
      } else {
        assert r == CleanString(s[1..]);
      }
    }
  }

  /** A subsequence made of word bytes has at most as many bytes as the input has word bytes. */
  lemma {:induction false} WordSubsequenceBound(r: string, s: string)
    requires IsSubsequence(r, s) && AllWordBytes(r)
    ensures |r| <= WordByteCount(s)
    decreases |s|
  {
    if r != [] {
      if r[0] == s[0] && IsSubsequence(r[1..], s[1..]) {
        WordSubsequenceBound(r[1..], s[1..]);
      } else {
        WordSubsequenceBound(r, s[1..]);
      }
    }
  }

  /**
   * `CleanString(s)` is the one subsequence of `s` made only of word bytes
   * that keeps all of them: any other such subsequence as long is equal to it.
   */
  lemma {:induction false} CleanStringIsUnique(r: string, s: string)
    requires IsSubsequence(r, s) && AllWordBytes(r)
    requires |r| == WordByteCount(s)
    ensures r == CleanString(s)
    decreases |s|
  {
    if r == [] {
      NoWordBytes(s);
    } else if r[0] == s[0] && IsSubsequence(r[1..], s[1..]) {
      assert IsWordByte(r[0]);
      CleanStringIsUnique(r[1..], s[1..]);
    } else {
      WordSubsequenceBound(r, s[1..]);
      assert !IsWordByte(s[0]);
      CleanStringIsUnique(r, s[1..]);
    }
  }

  lemma {:induction false} NoWordBytes(s: string)
    requires WordByteCount(s) == 0
    ensures CleanString(s) == []
  {
    if s != [] { NoWordBytes(s[1..]); }
  }

  /** `cleanString` leaves a string made only of word bytes as it is. */
  lemma {:induction false} CleanStringKeepsWordStrings(s: string)
    requires AllWordBytes(s)
    ensures CleanString(s) == s
  {
    if s != [] {
      assert IsWordByte(s[0]);
      CleanStringKeepsWordStrings(s[1..]);
    }
  }

  /** Cleaning twice is cleaning once. */
  lemma CleanStringIdempotent(s: string)
    ensures CleanString(CleanString(s)) == CleanString(s)
  {
    CleanStringKeepsWordStrings(CleanString(s));
  }

  /** Cleaning works piece by piece: the result for a concatenation is the concatenation of the results. */
  lemma {:induction false} CleanStringConcat(a: string, b: string)
    ensures CleanString(a + b) == CleanString(a) + CleanString(b)
  {
    if a != [] {
      assert (a + b)[0] == a[0] && (a + b)[1..] == a[1..] + b;
      CleanStringConcat(a[1..], b);
    } else {
      assert a + b == b;
    }
  }

  /** The UTF-8 bytes of "Jöhn Doe!" clean to "JhnDoe": the two bytes of `ö`, the space and `!` go. */
  lemma CleanStringExample()
    ensures CleanString("JÃ¶hn Doe!") == "JhnDoe"
  {
    CleanStringConcat("JÃ¶hn", " Doe!");
    assert "JÃ¶hn" + " Doe!" == "JÃ¶hn Doe!";
  }

  // ---------------------------------------------------------------------------
  // getBirthday

  /** The number a text of decimal digits denotes, most significant digit first. */
  ghost function DigitsValue(t: string): int {
    if t == [] then 0 else DigitsValue(t[..|t| - 1]) * 10 + (t[|t| - 1] as int - '0' as int)
  }

  /**
   * PHP's conversion of an integer to its decimal text: digits only, denoting
   * `n`, with no leading zero.
   */
  function DecimalText(n: nat): (t: string)
    ensures t != [] && forall i | 0 <= i < |t| :: '0' <= t[i] <= '9'
    ensures DigitsValue(t) == n
    ensures |t| > 1 ==> t[0] != '0'
  {
    var digit := ('0' as int + n % 10) as char;
    if n < 10 then [digit]
    else
      var t := DecimalText(n / 10) + [digit];
      assert t[..|t| - 1] == DecimalText(n / 10);
      t
  }

  /** PHP's conversion of a profile scalar to a string, as `.` does it. */
  function PhpText(v: PhpScalar): string {
    match v
    case Null => ""
    case Int(i) => if i < 0 then "-" + DecimalText(-i) else DecimalText(i)
    case Str(s) => s
  }

  /**
   * `getBirthday`: the text `year-month-day` handed to `DateTime` when day,
   * month and year are all non-empty, `null` otherwise.
   */
  function Birthday(p: Profile): (date: Option<string>)
    ensures date.None? <==> IsPhpEmpty(p.birthDay) || IsPhpEmpty(p.birthMonth) || IsPhpEmpty(p.birthYear)
  {
    if !IsPhpEmpty(p.birthDay) && !IsPhpEmpty(p.birthMonth) && !IsPhpEmpty(p.birthYear) then
      Some(PhpText(p.birthYear) + "-" + PhpText(p.birthMonth) + "-" + PhpText(p.birthDay))
    else
      None
  }

  ghost predicate NoDash(s: string) {
    forall i | 0 <= i < |s| :: s[i] != '-'
  }

  /** The pieces of `s` between dashes, in order. */
  function SplitOnDash(s: string): (parts: seq<string>)
    ensures parts != []
  {
    if s == [] then [""]
    else
      var rest := SplitOnDash(s[1..]);
      if s[0] == '-' then [""] + rest else [[s[0]] + rest[0]] + rest[1..]
  }

  lemma {:induction false} SplitOnDashWithoutDash(a: string)
    requires NoDash(a)
    ensures SplitOnDash(a) == [a]
  {
    if a != [] {
      SplitOnDashWithoutDash(a[1..]);
      assert [a[0]] + a[1..] == a;
    }
  }

  lemma {:induction false} SplitOnDashAfterPiece(a: string, t: string)
    requires NoDash(a)
    ensures SplitOnDash(a + "-" + t) == [a] + SplitOnDash(t)
  {
    var s := a + "-" + t;
    if a == [] {
      assert s == "-" + t && s[1..] == t;
    } else {
      assert s[0] == a[0] && s[1..] == a[1..] + "-" + t;
      SplitOnDashAfterPiece(a[1..], t);
      assert [a[0]] + a[1..] == a;
    }
  }

  /**
   * The birthday text gives back year, month and day, in that order, when
   * split at its dashes (none of the three containing a dash of its own).
   */
  lemma BirthdayComponents(p: Profile)
    requires Birthday(p).Some?
    requires NoDash(PhpText(p.birthYear)) && NoDash(PhpText(p.birthMonth)) && NoDash(PhpText(p.birthDay))
    ensures SplitOnDash(Birthday(p).value) == [PhpText(p.birthYear), PhpText(p.birthMonth), PhpText(p.birthDay)]
  {
    var y, m, d := PhpText(p.birthYear), PhpText(p.birthMonth), PhpText(p.birthDay);
    assert Birthday(p).value == y + "-" + (m + "-" + d);
    SplitOnDashAfterPiece(y, m + "-" + d);
    SplitOnDashAfterPiece(m, d);
    SplitOnDashWithoutDash(d);
  }

  /** Day 5, month 7, year 1990 give the text `1990-7-5`, which `DateTime` reads as 1990-07-05. */
  lemma BirthdayExample(p: Profile)
    requires p.birthDay == Int(5) && p.birthMonth == Int(7) && p.birthYear == Int(1990)
    ensures Birthday(p) == Some("1990-7-5")
  {
    assert DecimalText(1990) == "1990" by {
      assert DecimalText(1) == "1";
      assert DecimalText(19) == "19";
      assert DecimalText(199) == "199";
    }
    assert PhpText(p.birthYear) == "1990" && PhpText(p.birthMonth) == "7" && PhpText(p.birthDay) == "5";
    assert "1990" + "-" + "7" + "-" + "5" == "1990-7-5";
  }

  // ---------------------------------------------------------------------------
  // The response object

  /** `AccountNotConnectedException`, with all its fields set. */
  datatype AccountNotConnectedException = AccountNotConnectedException(
    message: string,
    code: int,
    previous: ToolkitError,
    providerName: string)

  /** The outcome of `new AbstractHybridAuthResponse($adapter)`: the object, or the exception it throws. */
  datatype Construction = Constructed(response: HybridAuthResponse) | Threw(error: AccountNotConnectedException)

  class HybridAuthResponse {
    const adapter: ProviderAdapter
    const userProfile: Profile
    /** Whether `__destruct` has run. */
    var tornDown: bool

    constructor (adapter: ProviderAdapter, userProfile: Profile)
      ensures this.adapter == adapter && this.userProfile == userProfile && !tornDown
    {
      this.adapter := adapter;
      this.userProfile := userProfile;
      tornDown := false;
    }

    function GetUserProfile(): Profile { userProfile }

    function GetIdentifier(): string { GetUserProfile().identifier }

    function GetEmail(): string { GetUserProfile().email }

    function GetFirstName(): string { GetUserProfile().firstName }

    function GetLastName(): string { GetUserProfile().lastName }

    function GetUsername(): string { CleanString(GetUserProfile().displayName) }

    function GetBirthday(): Option<string> { Birthday(GetUserProfile()) }

    function GetProviderName(): string { adapter.id }

    /** `__destruct`: logs the adapter out, once. */
    method Destruct()
      requires !tornDown
      modifies this`tornDown, adapter`logoutCount
      ensures tornDown
      ensures adapter.logoutCount == old(adapter.logoutCount) + 1
    {
      tornDown := true;
      adapter.Logout();
    }
  }

  /**
   * `new AbstractHybridAuthResponse($adapter)`: fetches the profile; when that
   * throws, logs the adapter out once and throws an `AccountNotConnectedException`
   * carrying the message, the code, the original exception and the adapter's id.
   * On success the adapter is not logged out, the response holds the profile,
   * its getters read the profile's fields (the username cleaned, the birthday
   * assembled) and its provider name is the adapter's id.
   */
  method Construct(adapter: ProviderAdapter) returns (c: Construction)
    modifies adapter`logoutCount
    ensures adapter.profile.Failure? ==>
              && c == Threw(AccountNotConnectedException(
                             adapter.profile.error.message, adapter.profile.error.code,
                             adapter.profile.error, adapter.id))
              && adapter.logoutCount == old(adapter.logoutCount) + 1
    ensures adapter.profile.Success? ==>
              && c.Constructed? && fresh(c.response) && !c.response.tornDown
              && c.response.adapter == adapter
              && c.response.GetUserProfile() == adapter.profile.value
              && c.response.GetProviderName() == adapter.id
              && c.response.GetIdentifier() == adapter.profile.value.identifier
              && c.response.GetEmail() == adapter.profile.value.email
              && c.response.GetFirstName() == adapter.profile.value.firstName
              && c.response.GetLastName() == adapter.profile.value.lastName
              && c.response.GetUsername() == CleanString(adapter.profile.value.displayName)
              && c.response.GetBirthday() == Birthday(adapter.profile.value)
              && adapter.logoutCount == old(adapter.logoutCount)
  {
    var profile := adapter.GetUserProfile();
    match profile
    case Failure(e) =>
      var ex := AccountNotConnectedException(e.message, e.code, e, adapter.id);
      adapter.Logout();
      c := Threw(ex);
    case Success(p) =>
      var response := new HybridAuthResponse(adapter, p);
      c := Constructed(response);
  }

  /** A username is made of word bytes only, and is what remains of the display name without the others. */
  lemma UsernameIsCleanedDisplayName(response: HybridAuthResponse)
    ensures AllWordBytes(response.GetUsername())
    ensures IsSubsequence(response.GetUsername(), response.userProfile.displayName)
    ensures |response.GetUsername()| == WordByteCount(response.userProfile.displayName)
  {
    CleanStringIsSubsequence(response.userProfile.displayName);
  }
}
