/** The three field validators of the form component (name, email, password).
    Each is a single JavaScript regular expression in the component. The
    email and password patterns are restated twice: once literally, as the
    set of strings the pattern matches (a split of the input, or a
    lookahead), and once as an independent character-level
    characterization; a lemma proves the two agree, and the error function
    that the change handler calls is specified by the characterization. The
    name pattern is a single unanchored character class, and its error
    function's contract states the complementary "every character is
    allowed" form. */
module Validators {

  /** What `\s` matches in a JavaScript regular expression: the ECMAScript
      WhiteSpace and LineTerminator code points. */
  predicate IsWhitespace(c: char) {
    || c == '\t' || c == '\n' || c == '\U{B}' || c == '\U{C}' || c == '\r' || c == ' '
    || c == '\U{A0}' || c == '\U{1680}' || ('\U{2000}' <= c <= '\U{200A}')
    || c == '\U{2028}' || c == '\U{2029}' || c == '\U{202F}' || c == '\U{205F}'
    || c == '\U{3000}' || c == '\U{FEFF}'
  }

  /** The characters `.` does NOT match in a JavaScript regular expression
      without the `s` flag. */
  predicate IsLineTerminator(c: char) {
    c == '\n' || c == '\r' || c == '\U{2028}' || c == '\U{2029}'
  }

  predicate IsDigit(c: char) { '0' <= c <= '9' }

  predicate IsLetter(c: char) { 'a' <= c <= 'z' || 'A' <= c <= 'Z' }

  // ---------------------------------------------------------------------------
  // Name

  /** The 27 characters of the name check's character class. */
  const SpecialChars: set<char> :=
    {'!', '@', '#', '$', '%', '^', '&', '*', '(', ')', '_', '+', '\\', '|', '}',
     ']', '{', '[', ':', '"', '>', '<', '?', '\'', ';', '~', '`'}

  const NameErrorMessage: string := "Special characters are not allowed"

  /** An unanchored character-class test: it matches iff some character of the
      input is in the class. */
  predicate HasSpecialChar(s: string) {
    exists k :: 0 <= k < |s| && s[k] in SpecialChars
  }

  /** The value the change handler gives `nameError` for a new name. */
  function NameError(value: string): (e: string)
    ensures e == "" <==> forall k :: 0 <= k < |value| ==> value[k] !in SpecialChars
    ensures e != "" ==> e == NameErrorMessage
  {
    if HasSpecialChar(value) then NameErrorMessage else ""
  }

  /** Validation runs on every keystroke: typing one more character raises the
      name error iff it was already raised or the new character is special
      (read the other way round, deleting the last character clears it iff
      no special character remains). */
  lemma {:induction false} NameErrorAfterKeystroke(s: string, c: char)
    ensures NameError(s + [c]) != "" <==> NameError(s) != "" || c in SpecialChars
  {
    var t := s + [c];
    assert t[|s|] == c;
    if NameError(s) != "" {
      var k :| 0 <= k < |s| && s[k] in SpecialChars;
      assert t[k] == s[k];
    }
    if NameError(t) != "" {
      var k :| 0 <= k < |t| && t[k] in SpecialChars;
      if k < |s| {
        assert s[k] == t[k];
      }
    }
  }

  /** Letters, digits, spaces and the punctuation `-`, `.`, `,` and `/` are
      outside the class, so a name made only of them is accepted. */
  lemma NameAllowsPunctuation(s: string)
    requires forall k :: 0 <= k < |s| ==>
               IsLetter(s[k]) || IsDigit(s[k]) || s[k] == ' ' || s[k] == '-' || s[k] == '.' || s[k] == ',' || s[k] == '/'
    ensures NameError(s) == ""
  {
  }

  // ---------------------------------------------------------------------------
  // Email

  const InvalidEmailMessage: string := "Invalid Email"

  /** A run of characters each matched by the class "neither whitespace nor `@`". */
  predicate NoWhitespaceOrAt(s: string) {
    forall k :: 0 <= k < |s| ==> !IsWhitespace(s[k]) && s[k] != '@'
  }

  /** The email pattern, anchored at both ends: a non-empty run, an `@`, a
      non-empty run, a literal `.`, a non-empty run, each run free of
      whitespace and `@`. It matches iff some split of the input fits. */
  predicate EmailPatternMatches(s: string) {
    exists at, dot ::
      && 0 < at && at + 1 < dot < |s| - 1
      && s[at] == '@' && s[dot] == '.'
      && NoWhitespaceOrAt(s[..at])
      && NoWhitespaceOrAt(s[at + 1..dot])
      && NoWhitespaceOrAt(s[dot + 1..])
  }

  /** The accepted shape stated directly: no whitespace anywhere, exactly one
      `@`, not in first position, and after it a `.` that is neither the
      first nor the last character of the part after the `@`. Extra dots are
      allowed on both sides. */
  predicate WellFormedEmail(s: string) {
    && (forall k :: 0 <= k < |s| ==> !IsWhitespace(s[k]))
    && exists at ::
         && 0 < at < |s| && s[at] == '@'
         && (forall k :: 0 <= k < |s| && s[k] == '@' ==> k == at)
         && (exists dot :: at + 1 < dot < |s| - 1 && s[dot] == '.')
  }

  lemma EmailPatternCharacterized(s: string)
    ensures EmailPatternMatches(s) <==> WellFormedEmail(s)
  {
  }

  /** The value the change handler gives `emailError` for a new email. */
  function EmailError(value: string): (e: string)
    ensures e == "" <==> WellFormedEmail(value)
    ensures e != "" ==> e == InvalidEmailMessage
  {
    EmailPatternCharacterized(value);
    if EmailPatternMatches(value) then "" else InvalidEmailMessage
  }

  // ---------------------------------------------------------------------------
  // Password

  const PasswordErrorMessage: string :=
    "Password must be 6-16 characters long and contain at least one digit and one special character"

  /** The symbols both required (at least one) and permitted in a password. */
  const PasswordSymbols: set<char> := {'!', '@', '#', '$', '%', '^', '&', '*'}

  predicate InPasswordAlphabet(c: char) {
    IsLetter(c) || IsDigit(c) || c in PasswordSymbols
  }

  /** The lookahead "any characters, then a digit" at the start of the input:
      some digit is preceded only by characters that `.` matches. */
  predicate DigitLookahead(s: string) {
    exists k :: 0 <= k < |s| && IsDigit(s[k]) && forall m :: 0 <= m < k ==> !IsLineTerminator(s[m])
  }

  /** The lookahead "any characters, then a password symbol". */
  predicate SymbolLookahead(s: string) {
    exists k :: 0 <= k < |s| && s[k] in PasswordSymbols && forall m :: 0 <= m < k ==> !IsLineTerminator(s[m])
  }

  /** The password pattern: both lookaheads hold at the start, and the whole
      input is 6 to 16 characters of the alphabet. */
  predicate PasswordPatternMatches(s: string) {
    && DigitLookahead(s)
    && SymbolLookahead(s)
    && 6 <= |s| <= 16
    && forall k :: 0 <= k < |s| ==> InPasswordAlphabet(s[k])
  }

  /** The accepted passwords stated directly. */
  predicate ValidPassword(s: string) {
    && 6 <= |s| <= 16
    && (forall k :: 0 <= k < |s| ==> InPasswordAlphabet(s[k]))
    && (exists k :: 0 <= k < |s| && IsDigit(s[k]))
    && (exists k :: 0 <= k < |s| && s[k] in PasswordSymbols)
  }

  /** Once every character is in the alphabet, no line terminator can stop a
      lookahead, so the lookaheads only ask for a digit and a symbol. */
  lemma PasswordPatternCharacterized(s: string)
    ensures PasswordPatternMatches(s) <==> ValidPassword(s)
  {
  }

  /** The value the change handler gives `passwordError` for a new password. */
  function PasswordError(value: string): (e: string)
    ensures e == "" <==> ValidPassword(value)
    ensures e != "" ==> e == PasswordErrorMessage
  {
    PasswordPatternCharacterized(value);
    if PasswordPatternMatches(value) then "" else PasswordErrorMessage
  }

  // ---------------------------------------------------------------------------
  // Worked examples

  lemma NameExamples()
    ensures NameError("Bob!") == NameErrorMessage
    ensures NameError("Jean-Luc O.") == ""
  {
    assert "Bob!"[3] == '!';
    NameAllowsPunctuation("Jean-Luc O.");
  }

  lemma EmailAccepts()
    ensures EmailError("a@b.c") == ""
    ensures EmailError("a@b.c.d") == ""
  {
    var e1 := "a@b.c";
    assert e1[1] == '@' && e1[3] == '.';
    var e2 := "a@b.c.d";
    assert e2[1] == '@' && e2[3] == '.';
  }

  lemma EmailRejects()
    ensures EmailError("a@b") == InvalidEmailMessage
    ensures EmailError("a@b@c.d") == InvalidEmailMessage
    ensures EmailError("@b.c") == InvalidEmailMessage
    ensures EmailError("a b@c.d") == InvalidEmailMessage
  {
    var e3 := "a@b@c.d";
    assert e3[1] == '@' && e3[3] == '@';
    var e4 := "a b@c.d";
    assert IsWhitespace(e4[1]);
  }

  lemma PasswordAccepts()
    ensures PasswordError("abc123!") == ""
  {
    var p := "abc123!";
    assert IsDigit(p[3]) && p[6] in PasswordSymbols;
  }

  lemma PasswordRejects()
    ensures PasswordError("abc123") == PasswordErrorMessage
    ensures PasswordError("abc!@#") == PasswordErrorMessage
    ensures PasswordError("a1!") == PasswordErrorMessage
  {
  }
}
