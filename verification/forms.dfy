/**
 * The form validators: location name and slug, user name and password
 * confirmation, the uniqueness check on user names, the start-of-day
 * form and the settlement form. Each validator is a predicate on the
 * submitted field values.
 */
module Forms {
  import opened Wrappers
  import opened Text

  /** A submitted number field: left blank, not a number, or a (whole NT$) value. */
  datatype FloatInput = Blank | Unparsable | Value(v: int)

  /** `DataRequired` on a text field: present and not only whitespace. */
  predicate DataRequired(s: Option<string>) {
    s.Some? && Strip(s.value) != []
  }

  /** `DataRequired` on a number field: the value must be truthy, so 0 is refused. */
  predicate NumberRequired(x: FloatInput) {
    x.Value? && x.v != 0
  }

  /** `Length(min, max)`: a missing value has length 0; `max == -1` means no upper bound. */
  predicate LengthOk(s: Option<string>, min: int, max: int) {
    var n := if s.Some? then |s.value| else 0;
    n >= min && (max == -1 || n <= max)
  }

  predicate IsSlugChar(c: char) { IsLower(c) || IsDigit(c) }

  /**
   * The language of `[a-z0-9]+(?:-[a-z0-9]+)*`: groups of lower-case
   * letters and digits joined by single hyphens.
   */
  predicate SlugShape(s: string) {
    if s == [] then false
    else if '-' !in s then forall i :: 0 <= i < |s| ==> IsSlugChar(s[i])
    else
      var h := FirstHyphen(s);
      h > 0 && (forall i :: 0 <= i < h ==> IsSlugChar(s[i])) && SlugShape(s[h + 1..])
  }

  /** Position of the first '-' in `s`. */
  function FirstHyphen(s: string): (h: nat)
    requires '-' in s
    ensures h < |s| && s[h] == '-' && '-' !in s[..h]
  {
    if s[0] == '-' then 0
    else
      assert '-' in s[1..] by { var j :| 0 <= j < |s| && s[j] == '-'; assert s[1..][j - 1] == '-'; }
      var h := FirstHyphen(s[1..]) + 1;
      assert s[..h] == [s[0]] + s[1..][..h - 1];
      h
  }

  /** Slug characters only, no hyphen at either end and never two hyphens in a row. */
  predicate HyphenatedSlugChars(s: string) {
    && s != []
    && (forall i :: 0 <= i < |s| ==> IsSlugChar(s[i]) || s[i] == '-')
    && s[0] != '-' && s[|s| - 1] != '-'
    && (forall i :: 0 <= i < |s| - 1 ==> !(s[i] == '-' && s[i + 1] == '-'))
  }

  /** The slug pattern read group by group accepts exactly the strings described character by character. */
  lemma {:induction false} SlugShapeByCharacters(s: string)
    ensures SlugShape(s) <==> HyphenatedSlugChars(s)
    decreases |s|
  {
    if s != [] && '-' in s {
      var h := FirstHyphen(s);
      var rest := s[h + 1..];
      SlugShapeByCharacters(rest);
      if SlugShape(s) {
        assert HyphenatedSlugChars(rest);
        forall i | 0 <= i < |s| - 1
          ensures !(s[i] == '-' && s[i + 1] == '-')
        {
          if i >= h + 1 { assert s[i] == rest[i - h - 1] && s[i + 1] == rest[i - h]; }
          else if i == h { assert s[i + 1] == rest[0]; }
        }
        forall i | 0 <= i < |s|
          ensures IsSlugChar(s[i]) || s[i] == '-'
        {
          if i > h { assert s[i] == rest[i - h - 1]; }
        }
        assert s[|s| - 1] == rest[|rest| - 1];
      }
      if HyphenatedSlugChars(s) {
        assert h > 0;
        forall i | 0 <= i < h
          ensures IsSlugChar(s[i])
        {
          assert s[i] in s[..h];
        }
        assert h + 1 < |s|;
        assert rest[0] != '-' by { assert !(s[h] == '-' && s[h + 1] == '-'); }
        forall i | 0 <= i < |rest| - 1
          ensures !(rest[i] == '-' && rest[i + 1] == '-')
        {
          assert rest[i] == s[h + 1 + i] && rest[i + 1] == s[h + 2 + i];
        }
        assert HyphenatedSlugChars(rest);
      }
    } else if s != [] {
      if HyphenatedSlugChars(s) {
        assert forall i :: 0 <= i < |s| ==> s[i] != '-' by {
          forall i | 0 <= i < |s| ensures s[i] != '-' { assert s[i] in s; }
        }
      }
    }
  }

  /**
   * What `re.match` with a pattern anchored by `^...$` accepts: Python's
   * `$` also matches just before a final newline.
   */
  predicate DollarMatch(shape: string -> bool, s: string) {
    shape(s) || (s != [] && s[|s| - 1] == '\n' && shape(s[..|s| - 1]))
  }

  /** `LocationForm.name`: required, at most 50 characters. */
  predicate LocationNameValid(name: Option<string>) {
    DataRequired(name) && LengthOk(name, -1, 50)
  }

  /** A location name is accepted iff it is at most 50 characters and not all whitespace. */
  lemma LocationNameValidIff(name: string)
    ensures LocationNameValid(Some(name)) <==> |name| <= 50 && exists i :: 0 <= i < |name| && !IsSpace(name[i])
    ensures !LocationNameValid(None)
  {
    StripEmptyIff(name);
  }

  /** `LocationForm.slug` as written: required, at most 50 characters, and the pattern checked with `re.match`. */
  predicate LocationSlugValidAsWritten(slug: Option<string>) {
    DataRequired(slug) && LengthOk(slug, -1, 50) && DollarMatch(SlugShape, slug.value)
  }

  /** The slug validator as written accepts every slug of the language, and nothing more unless the value ends in a newline. */
  lemma SlugAsWrittenOnlyAddsNewline(slug: string)
    ensures LocationSlugValid(Some(slug)) ==> LocationSlugValidAsWritten(Some(slug))
    ensures LocationSlugValidAsWritten(Some(slug)) && !LocationSlugValid(Some(slug)) ==> slug != [] && slug[|slug| - 1] == '\n'
    ensures !LocationSlugValidAsWritten(None)
  {
  }

  /** As written, a slug ending in a newline passes the slug validator. */
  lemma SlugTrailingNewlineAccepted()
    ensures LocationSlugValidAsWritten(Some("ab\n"))
    ensures !HyphenatedSlugChars("ab\n")
  {
    var s := "ab\n";
    StripNonEmpty(s, 0);
    assert s[..2] == "ab";
    assert SlugShape("ab") by {
      assert '-' !in "ab";
    }
    assert !IsSlugChar(s[2]) && s[2] != '-';
  }

  /**
   * `LocationForm.slug` with the whole value matched against the pattern:
   * an accepted slug is 1 to 50 lower-case letters, digits and single
   * inner hyphens.
   */
  predicate LocationSlugValid(slug: Option<string>) {
    DataRequired(slug) && LengthOk(slug, -1, 50) && SlugShape(slug.value)
  }

  /** An accepted slug is 1 to 50 characters of `[a-z0-9-]` with no leading, trailing or doubled hyphen, and conversely. */
  lemma {:induction false} LocationSlugValidIff(slug: string)
    ensures LocationSlugValid(Some(slug)) <==> HyphenatedSlugChars(slug) && |slug| <= 50
  {
    SlugShapeByCharacters(slug);
    if HyphenatedSlugChars(slug) {
      assert !IsSpace(slug[0]);
      assert LStrip(slug) == slug;
      assert RStrip(slug) == slug;
    }
  }

  predicate IsUsernameChar(c: char) { IsAsciiLetter(c) || IsDigit(c) || c == '_' || c == '.' }

  /** The language of `[A-Za-z][A-Za-z0-9_.]*`. */
  predicate UsernameShape(s: string) {
    s != [] && IsAsciiLetter(s[0]) && forall i :: 1 <= i < |s| ==> IsUsernameChar(s[i])
  }

  /** `UserForm.username` as written: required, 1 to 64 characters, pattern checked with `re.match`. */
  predicate UsernameValidAsWritten(name: Option<string>) {
    DataRequired(name) && LengthOk(name, 1, 64) && DollarMatch(UsernameShape, name.value)
  }

  /** The user-name validator as written accepts every name of the language, and nothing more unless the value ends in a newline. */
  lemma UsernameAsWrittenOnlyAddsNewline(name: string)
    ensures UsernameValid(Some(name)) ==> UsernameValidAsWritten(Some(name))
    ensures UsernameValidAsWritten(Some(name)) && !UsernameValid(Some(name)) ==> name != [] && name[|name| - 1] == '\n'
    ensures !UsernameValidAsWritten(None)
  {
  }

  /** As written, a user name ending in a newline passes the user-name validator. */
  lemma UsernameTrailingNewlineAccepted()
    ensures UsernameValidAsWritten(Some("ab\n"))
    ensures !UsernameShape("ab\n")
  {
    var s := "ab\n";
    StripNonEmpty(s, 0);
    assert s[..2] == "ab";
  }

  /** `UserForm.username` with the whole value matched: 1 to 64 characters, a letter first, then letters, digits, '_' or '.'. */
  predicate UsernameValid(name: Option<string>) {
    DataRequired(name) && LengthOk(name, 1, 64) && UsernameShape(name.value)
  }

  /** An accepted user name is exactly a 1-to-64 character word of the user-name language. */
  lemma UsernameValidIff(name: string)
    ensures UsernameValid(Some(name)) <==> UsernameShape(name) && |name| <= 64
  {
    if UsernameShape(name) {
      assert !IsSpace(name[0]);
      assert LStrip(name) == name;
    }
  }

  /** `UserForm.password`: must equal the confirmation field. */
  predicate PasswordsMatch(password: Option<string>, confirmation: Option<string>) {
    password == confirmation
  }

  /** Two empty password fields match, so an edit may leave the password unchanged; otherwise both must hold the same text. */
  lemma PasswordsMatchIff(password: Option<string>, confirmation: Option<string>)
    ensures PasswordsMatch(None, None)
    ensures PasswordsMatch(password, confirmation) <==>
      (password.None? && confirmation.None?) || (password.Some? && confirmation.Some? && password.value == confirmation.value)
  {
  }

  /**
   * `UserForm.validate_username`: a name already taken is refused, unless
   * the form edits a user and the name is that user's unchanged name.
   */
  function UsernameAvailable(originalName: Option<string>, name: string, taken: set<string>): (ok: bool)
    ensures !ok <==> name in taken && originalName != Some(name)
  {
    if originalName.None? || originalName.value != name then name !in taken else true
  }

  /** `StartDayForm`: the opening cash is required (so neither blank nor 0) and the notes at most 200 characters. */
  predicate StartDayFormValid(openingCash: FloatInput, notes: Option<string>) {
    NumberRequired(openingCash) && LengthOk(notes, -1, 200)
  }

  /** A day starts only with a non-zero opening cash; blank notes are fine, and notes of up to 200 characters. */
  lemma StartDayFormValidIff(openingCash: FloatInput, notes: Option<string>)
    ensures !StartDayFormValid(Value(0), notes) && !StartDayFormValid(Blank, notes) && !StartDayFormValid(Unparsable, notes)
    ensures StartDayFormValid(openingCash, notes) <==>
      openingCash.Value? && openingCash.v != 0 && (notes.None? || |notes.value| <= 200)
  {
  }

  /**
   * `SettlementForm`: the deposit may be left blank but not be garbage;
   * the next-day opening cash is required (so not 0).
   */
  predicate SettlementFormValid(deposit: FloatInput, nextDayOpeningCash: FloatInput) {
    deposit != Unparsable && NumberRequired(nextDayOpeningCash)
  }

  /** A settlement may leave the deposit blank but needs a non-zero next-day opening cash. */
  lemma SettlementFormValidIff(deposit: FloatInput, nextDayOpeningCash: FloatInput)
    ensures SettlementFormValid(deposit, nextDayOpeningCash) <==>
      (deposit.Blank? || deposit.Value?) && nextDayOpeningCash.Value? && nextDayOpeningCash.v != 0
  {
  }

  /** The number of remark rows the settlement form shows: those submitted, padded to at least 11. */
  function RemarkRowCount(submitted: nat): (n: nat)
    ensures n >= 11 && n >= submitted
    ensures n == submitted || n == 11
  {
    if submitted < 11 then 11 else submitted
  }

  /** The remarks saved with a settlement: one entry per key whose value is non-empty, a later row overriding an earlier one. */
  function RemarksDict(rows: seq<(string, string)>): (m: map<string, string>)
    ensures forall k :: k in m ==> m[k] != []
    ensures forall i :: 0 <= i < |rows| && rows[i].1 != [] ==> rows[i].0 in m
    ensures forall k :: k in m ==> exists i :: 0 <= i < |rows| && rows[i].0 == k && rows[i].1 != []
  {
    if rows == [] then map[]
    else
      var n := |rows| - 1;
      var init := rows[..n];
      var m := RemarksDict(init);
      var last := rows[n];
      var r := if last.1 != [] then m[last.0 := last.1] else m;
      forall k | k in r
        ensures exists i :: 0 <= i < |rows| && rows[i].0 == k && rows[i].1 != []
      {
        if !(last.1 != [] && k == last.0) {
          var i :| 0 <= i < |init| && init[i].0 == k && init[i].1 != [];
          assert rows[i] == init[i];
        }
      }
      r
  }

  /** No row after row `i` with the same key has a non-empty value. */
  predicate LastNonEmpty(rows: seq<(string, string)>, i: int)
    requires 0 <= i < |rows|
  {
    forall j :: i < j < |rows| && rows[j].0 == rows[i].0 ==> rows[j].1 == []
  }

  /** A key's saved remark is the value of its last row with a non-empty value. */
  lemma {:induction false} RemarksDictLastWins(rows: seq<(string, string)>, i: int)
    requires 0 <= i < |rows| && rows[i].1 != [] && LastNonEmpty(rows, i)
    ensures RemarksDict(rows)[rows[i].0] == rows[i].1
    decreases |rows|
  {
    var n := |rows| - 1;
    if i < n {
      var init := rows[..n];
      assert init[i] == rows[i];
      assert LastNonEmpty(init, i);
      RemarksDictLastWins(init, i);
      assert rows[n].1 != [] ==> rows[n].0 != rows[i].0;
    }
  }
}
