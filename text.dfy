/** ASCII stand-ins for the two string operations the user record relies on:
    Ruby's `String#downcase!` (run on the email before every save) and the
    framework's `blank?`, which the `presence` validations test. */
module Text {

  predicate IsUpper(c: char) {
    'A' <= c <= 'Z'
  }

  /** The whitespace `blank?` ignores, restricted to ASCII. */
  predicate IsSpace(c: char) {
    c == ' ' || c == '\t' || c == '\n' || c == '\r' || c == '\U{C}' || c == '\U{B}'
  }

  /** One character as `downcase` leaves it: capitals become small letters,
      everything else is kept. */
  function LowerChar(c: char): (d: char)
    ensures !IsUpper(d)
    ensures !IsUpper(c) ==> d == c
    ensures IsUpper(c) ==> 'a' <= d <= 'z' && d as int - c as int == 'a' as int - 'A' as int
  {
    if IsUpper(c) then (c as int - 'A' as int + 'a' as int) as char else c
  }

  /** The string `downcase` produces: same length, each character lowered. */
  function Lower(s: string): (r: string)
    ensures |r| == |s|
    ensures forall i :: 0 <= i < |s| ==> r[i] == LowerChar(s[i])
  {
    if s == [] then [] else [LowerChar(s[0])] + Lower(s[1..])
  }

  predicate IsLowercase(s: string) {
    forall i :: 0 <= i < |s| ==> !IsUpper(s[i])
  }

  /** `blank?` on a string: empty, or whitespace only. */
  predicate Blank(s: string) {
    forall i :: 0 <= i < |s| ==> IsSpace(s[i])
  }

  /** What the `presence: true` validation accepts. */
  predicate Present(s: string) {
    !Blank(s)
  }

  /** Lowering leaves no capital behind. */
  lemma LowerIsLowercase(s: string)
    ensures IsLowercase(Lower(s))
  {
  }

  /** Lowering changes a string exactly when it holds a capital. */
  lemma LowerFixesExactlyLowercase(s: string)
    ensures Lower(s) == s <==> IsLowercase(s)
  {
    if !IsLowercase(s) {
      var i :| 0 <= i < |s| && IsUpper(s[i]);
      assert Lower(s)[i] != s[i];
    }
  }

  /** Lowering twice is lowering once. */
  lemma LowerIdempotent(s: string)
    ensures Lower(Lower(s)) == Lower(s)
  {
    LowerIsLowercase(s);
    LowerFixesExactlyLowercase(Lower(s));
  }

  /** Lowering neither creates nor removes a non-blank character, so the
      presence check gives the same answer before and after. */
  lemma LowerKeepsPresence(s: string)
    ensures Present(Lower(s)) <==> Present(s)
  {
    if !Blank(s) {
      var i :| 0 <= i < |s| && !IsSpace(s[i]);
      assert !IsSpace(Lower(s)[i]);
    }
  }

  /** The example address given for the email normalisation. */
  lemma LowerExample()
    ensures Lower("Foo@Bar.com") == "foo@bar.com"
  {
    LowerEqualsPointwise("Foo@Bar.com", "foo@bar.com");
  }

  /** A string is the lowercase form of another when they agree character by
      character under `LowerChar`. */
  lemma LowerEqualsPointwise(s: string, t: string)
    requires |s| == |t| && forall i :: 0 <= i < |s| ==> LowerChar(s[i]) == t[i]
    ensures Lower(s) == t
  {
  }
}
