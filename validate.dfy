/** The two field validators attached to the Issue record. */
module Validate {
  import opened Text

  /** A validator either returns normally or raises a validation error. */
  datatype Verdict = Accepted | Rejected

  /**
   * `title`: the text must begin with an upper-case character. The source
   * indexes the first character unconditionally, so the text must not be
   * empty (the form layer only runs validators on non-empty values).
   */
  function Title(s: string): (v: Verdict)
    requires |s| > 0
    ensures v == Rejected <==> !IsUpper(s[0])
  {
    if !IsUpper(s[0]) then Rejected else Accepted
  }

  /** `title` looks at the first character only. */
  lemma TitleOnlyFirstChar(s: string, t: string)
    requires |s| > 0 && |t| > 0 && s[0] == t[0]
    ensures Title(s) == Title(t)
  {
  }

  /** Digits, punctuation and spaces are not upper case, so a text starting with one is rejected. */
  lemma TitleRejectsNonLetterStart(s: string)
    requires |s| > 0 && (IsDigit(s[0]) || IsSpace(s[0]) || s[0] in ".,!?-_'\"()")
    ensures Title(s) == Rejected
  {
  }

  lemma TitleExamples()
    ensures Title("bad report") == Rejected
    ensures Title("Bad report") == Accepted
  {
  }

  /** `null`: the text must not contain the character '0' (the string `str(0)`). */
  function Null(s: string): (v: Verdict)
    ensures v == Rejected <==> exists i :: 0 <= i < |s| && s[i] == '0'
  {
    CharInIff('0', s);
    if IsSubstring("0", s) then Rejected else Accepted
  }

  lemma NullAcceptsWithoutZero(s: string)
    requires forall i :: 0 <= i < |s| ==> s[i] != '0'
    ensures Null(s) == Accepted
  {
  }

  lemma NullExamples()
    ensures Null("") == Accepted
    ensures Null("version 10") == Rejected
  {
    assert "version 10"[9] == '0';
  }
}
