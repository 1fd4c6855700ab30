/** The password rule of app.py (`is_strong_password`): at least eight
    characters, with at least one ASCII letter and at least one digit. */
module Passwords {

  const MinPasswordLength: nat := 8

  predicate IsAsciiLetter(c: char) { 'A' <= c <= 'Z' || 'a' <= c <= 'z' }

  /** `\d`, restricted to the ASCII digits. */
  predicate IsDigit(c: char) { '0' <= c <= '9' }

  /** `re.search(cls, s) is not None` for a one-character class: a scan for
      any character of the class. */
  function Search(s: string, cls: char -> bool): (found: bool)
    ensures found <==> exists i :: 0 <= i < |s| && cls(s[i])
  {
    if s == [] then false
    else if cls(s[0]) then true
    else
      var found := Search(s[1..], cls);
      assert found ==> exists i :: 0 <= i < |s| && cls(s[i]) by {
        if found {
          var i :| 0 <= i < |s[1..]| && cls(s[1..][i]);
          assert cls(s[i + 1]);
        }
      }
      found
  }

  /** `is_strong_password(password)`, with its three early rejections. */
  function IsStrongPassword(password: string): (strong: bool)
    ensures strong <==>
      |password| >= MinPasswordLength
      && (exists i :: 0 <= i < |password| && IsAsciiLetter(password[i]))
      && (exists i :: 0 <= i < |password| && IsDigit(password[i]))
  {
    if |password| < MinPasswordLength then false
    else if !Search(password, IsAsciiLetter) then false
    else if !Search(password, IsDigit) then false
    else true
  }

  /** Adding characters to a strong password, at either end, keeps it
      strong: the rule only ever asks for something to be present. */
  lemma StrongPasswordExtends(password: string, before: string, after: string)
    requires IsStrongPassword(password)
    ensures IsStrongPassword(before + password + after)
  {
    var longer := before + password + after;
    var i :| 0 <= i < |password| && IsAsciiLetter(password[i]);
    var j :| 0 <= j < |password| && IsDigit(password[j]);
    assert longer[|before| + i] == password[i];
    assert longer[|before| + j] == password[j];
  }

  /** Without a digit no password is strong, however long. */
  lemma NoDigitIsWeak(password: string)
    requires forall i :: 0 <= i < |password| ==> !IsDigit(password[i])
    ensures !IsStrongPassword(password)
  {
  }
}
