/** How a submitted text field is cleaned by the web framework's form layer. */
module Forms {
  import opened Wrappers
  import opened Text

  /**
   * A `forms.CharField` with stripping on (the framework default every form
   * of this application uses): the submitted text is stripped; an empty
   * value fails a required field and otherwise cleans to the empty string;
   * a non-empty value must fit `maxLength` and must not contain the NUL
   * character. None stands for "the field, and so the form, is invalid".
   * An absent field is submitted as the empty string.
   */
  function CleanCharField(raw: string, required: bool, maxLength: nat): (r: Option<string>)
    ensures r.Some? <==> (required ==> Strip(raw) != "") && |Strip(raw)| <= maxLength && '\0' !in Strip(raw)
    ensures r.Some? ==> r.value == Strip(raw)
  {
    var v := Strip(raw);
    if v == "" then
      if required then None else Some("")
    else if |v| <= maxLength && '\0' !in v then Some(v)
    else None
  }

  /** Whitespace around the submitted text never changes what the field cleans to. */
  lemma {:induction false} CleanIgnoresSurroundingSpace(raw: string, required: bool, maxLength: nat)
    ensures CleanCharField(" " + raw + " ", required, maxLength) == CleanCharField(raw, required, maxLength)
  {
    StripOfPadded(raw);
  }

  lemma StripOfPadded(raw: string)
    ensures Strip(" " + raw + " ") == Strip(raw)
  {
    var padded := " " + raw + " ";
    assert padded[0] == ' ' && padded[1..] == raw + " ";
    var t := TrimStart(raw);
    calc {
      Strip(padded);
      TrimEnd(TrimStart(padded));
      TrimEnd(TrimStart(raw + " "));
      { TrimStartOfSuffixSpace(raw); }
      TrimEnd(if t == "" then "" else t + " ");
      { TrimEndOfSpace(t); }
      TrimEnd(t);
      Strip(raw);
    }
  }

  lemma {:induction false} TrimStartOfSuffixSpace(s: string)
    ensures TrimStart(s + " ") == if TrimStart(s) == "" then "" else TrimStart(s) + " "
  {
    if |s| > 0 && IsSpace(s[0]) {
      assert (s + " ")[1..] == s[1..] + " ";
      TrimStartOfSuffixSpace(s[1..]);
    } else if s == [] {
      assert (s + " ")[1..] == [];
    }
  }

  lemma TrimEndOfSpace(t: string)
    ensures TrimEnd(if t == "" then "" else t + " ") == TrimEnd(t)
  {
    if t != "" {
      assert (t + " ")[..|t|] == t;
    }
  }
}
