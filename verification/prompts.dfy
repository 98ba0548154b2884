/**
 * The input validators of the interactive-prompts example
 * (examples/interactive_prompts.rs), together with the unsigned-integer
 * parsing they rely on (Rust's `str::parse` for `u16` and `u32`).
 */
module Prompts {

  import opened Errors
  import opened Text

  /** A validator's verdict: accepted, or rejected with the message shown. */
  type Verdict = Result<(), string>

  predicate IsDigit(c: char) {
    '0' <= c <= '9'
  }

  predicate AllDigits(s: string) {
    forall i :: 0 <= i < |s| ==> IsDigit(s[i])
  }

  /** The value of a string of decimal digits, most significant first. */
  function DigitsValue(s: string): nat
    requires AllDigits(s)
  {
    if |s| == 0 then 0
    else DigitsValue(s[..|s| - 1]) * 10 + (s[|s| - 1] as int - '0' as int)
  }

  /**
   * `str::parse` for an unsigned integer of `bits` bits: one optional '+'
   * (not on its own), then at least one decimal digit, and a value that
   * fits. Every failure is the same to the validators.
   */
  function ParseUnsigned(s: string, bits: nat): (r: Option<nat>)
    ensures r.Some? ==> r.value < Pow2(bits)
    ensures r.Some? <==>
      var digits := if |s| > 1 && s[0] == '+' then s[1..] else s;
      |digits| > 0 && AllDigits(digits) && DigitsValue(digits) < Pow2(bits)
    ensures r.Some? ==> r.value == DigitsValue(if |s| > 1 && s[0] == '+' then s[1..] else s)
  {
    var digits := if |s| > 1 && s[0] == '+' then s[1..] else s;
    if |digits| == 0 || !AllDigits(digits) then None
    else
      var v := DigitsValue(digits);
      if v < Pow2(bits) then Some(v) else None
  }

  function Pow2(n: nat): (r: nat)
    ensures r > 0
  {
    if n == 0 then 1 else 2 * Pow2(n - 1)
  }

  /** The decimal text of a number, as `to_string` writes it. */
  function ShowNat(n: nat): (r: string)
    ensures |r| > 0 && AllDigits(r)
    ensures r[0] != '+'
  {
    var d := ['0' + (n % 10) as char];
    if n < 10 then d else ShowNat(n / 10) + d
  }

  /** Reading back the digits of a number gives the number. */
  lemma {:induction false} ShowNatValue(n: nat)
    ensures DigitsValue(ShowNat(n)) == n
  {
    var s := ShowNat(n);
    if n >= 10 {
      ShowNatValue(n / 10);
      assert s[..|s| - 1] == ShowNat(n / 10);
    }
  }

  /** Parsing what `to_string` prints gives the number back, whenever it fits. */
  lemma ParseShowRoundTrip(n: nat, bits: nat)
    requires n < Pow2(bits)
    ensures ParseUnsigned(ShowNat(n), bits) == Some(n)
  {
    ShowNatValue(n);
  }

  /** A leading '+' is accepted and changes nothing. */
  lemma ParsePlusSign(s: string, bits: nat)
    requires |s| > 0 && AllDigits(s)
    ensures ParseUnsigned("+" + s, bits) == ParseUnsigned(s, bits)
  {
    assert ("+" + s)[1..] == s;
  }

  /** The age prompt: a `u32` between 1 and 149. */
  function ValidateAge(input: string): (r: Verdict)
    ensures r.Ok? <==> ParseUnsigned(input, 32).Some? && 0 < ParseUnsigned(input, 32).value < 150
    ensures r.Err? && ParseUnsigned(input, 32).None? ==> r.error == "Please enter a valid number"
    ensures r.Err? && ParseUnsigned(input, 32).Some? ==> r.error == "Please enter a realistic age (1-149)"
  {
    match ParseUnsigned(input, 32)
    case Some(age) =>
      if 0 < age < 150 then Ok(()) else Err("Please enter a realistic age (1-149)")
    case None => Err("Please enter a valid number")
  }

  /** Every realistic age, typed as a number, is accepted. */
  lemma AgeAcceptsRealistic(age: nat)
    requires 0 < age < 150
    ensures ValidateAge(ShowNat(age)).Ok?
  {
    Pow2Value32();
    ParseShowRoundTrip(age, 32);
  }

  lemma {:induction false} Pow2Add(a: nat, b: nat)
    ensures Pow2(a + b) == Pow2(a) * Pow2(b)
  {
    if a > 0 {
      Pow2Add(a - 1, b);
    }
  }

  lemma Pow2Value32()
    ensures Pow2(32) == 0x1_0000_0000
  {
    Pow2Value16();
    Pow2Add(16, 16);
  }

  lemma Pow2Value16()
    ensures Pow2(16) == 0x1_0000
  {
    assert Pow2(8) == 256 by {
      assert Pow2(4) == 16;
    }
  }

  /** The project-name prompt: not blank and without spaces. */
  function ValidateProjectName(input: string): (r: Verdict)
    ensures r.Ok? <==> !IsBlank(input) && ' ' !in input
    ensures r.Err? && IsBlank(input) ==> r.error == "Project name cannot be empty"
    ensures r.Err? && !IsBlank(input) ==> r.error == "Project name cannot contain spaces"
  {
    TrimEmptyIffBlank(input);
    if Trim(input) == "" then Err("Project name cannot be empty")
    else if ' ' in input then Err("Project name cannot contain spaces")
    else Ok(())
  }

  /** The e-mail prompt: some '@' and some '.', in any order. */
  function ValidateEmail(input: string): (r: Verdict)
    ensures r.Ok? <==> (exists i :: 0 <= i < |input| && input[i] == '@') && (exists j :: 0 <= j < |input| && input[j] == '.')
    ensures r.Err? ==> r.error == "Please enter a valid email address"
  {
    if '@' in input && '.' in input then Ok(()) else Err("Please enter a valid email address")
  }

  /** The check is that weak: the '.' may come before the '@'. */
  lemma EmailDotMayPrecedeAt()
    ensures ValidateEmail("." + "@").Ok?
  {
    var s := "." + "@";
    assert s[0] == '.' && s[1] == '@';
  }

  /** The URL prompt: an http or https scheme prefix. */
  function ValidateUrl(input: string): (r: Verdict)
    ensures r.Ok? <==> StartsWith(input, "http://") || StartsWith(input, "https://")
    ensures r.Err? ==> r.error == "URL must start with http:// or https://"
  {
    if StartsWith(input, "http://") || StartsWith(input, "https://") then Ok(())
    else Err("URL must start with http:// or https://")
  }

  /** Any text after either scheme prefix is accepted. */
  lemma UrlAcceptsSchemes(rest: string)
    ensures ValidateUrl("http://" + rest).Ok?
    ensures ValidateUrl("https://" + rest).Ok?
  {
    assert ("http://" + rest)[..7] == "http://";
    assert ("https://" + rest)[..8] == "https://";
  }

  /** The port prompt: a `u16` that is not a privileged port. */
  function ValidatePort(input: string): (r: Verdict)
    ensures r.Ok? <==> ParseUnsigned(input, 16).Some? && ParseUnsigned(input, 16).value >= 1024
    ensures r.Err? && ParseUnsigned(input, 16).None? ==> r.error == "Please enter a valid port number"
    ensures r.Err? && ParseUnsigned(input, 16).Some? ==> r.error == "Port must be 1024 or higher"
  {
    match ParseUnsigned(input, 16)
    case Some(port) =>
      if port >= 1024 then Ok(()) else Err("Port must be 1024 or higher")
    case None => Err("Please enter a valid port number")
  }

  /** Accepted ports are exactly 1024 to 65535. */
  lemma PortRange(port: nat)
    ensures ValidatePort(ShowNat(port)).Ok? <==> 1024 <= port <= 65535
  {
    Pow2Value16();
    ShowNatValue(port);
  }
}
