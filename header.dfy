/**
 * The page header's avatar initials and role label. `getInitials` reads the
 * first character of the first two parts of a name; JavaScript answers
 * `undefined` for `""[0]`, and the model keeps what the concatenation then
 * does.
 */
module Header {
  import opened Sequences
  import opened Models
  import opened Text

  /** What `getInitials` hands back: a string, or the TypeError it throws. */
  datatype Initials = Initials(text: string) | Throws

  /** `s[0]`: undefined (None) on the empty string. */
  function FirstChar(s: string): (r: Option<char>)
    ensures r.None? <==> s == ""
    ensures r.Some? ==> r.value == s[0]
  {
    if s == "" then None else Some(s[0])
  }

  const UndefinedText: string := "undefined"

  /**
   * `(a + b).toUpperCase()` on two `s[0]` results. A string plus undefined
   * concatenates the text "undefined"; undefined plus undefined is NaN, a
   * number, and calling `toUpperCase` on it throws.
   */
  function UpperPair(a: Option<char>, b: Option<char>): (r: Initials)
    ensures r.Throws? <==> a.None? && b.None?
    ensures a.Some? && b.Some? ==> r == Initials(Upper([a.value, b.value]))
    ensures a.Some? && b.None? ==> r == Initials(Upper([a.value] + UndefinedText))
    ensures a.None? && b.Some? ==> r == Initials(Upper(UndefinedText + [b.value]))
    ensures r.Initials? ==> NoLowerAscii(r.text)
  {
    match (a, b)
    case (None, None) => Throws
    case (Some(x), None) => Initials(Upper([x] + UndefinedText))
    case (None, Some(y)) => Initials(Upper(UndefinedText + [y]))
    case (Some(x), Some(y)) => Initials(Upper([x, y]))
  }

  /** `getInitials(name)`, with a missing name as None. */
  function GetInitials(name: Option<string>): (r: Initials)
    ensures name.None? || name.value == "" ==> r == Initials("")
    ensures r.Initials? ==> NoLowerAscii(r.text)
  {
    if name.None? || name.value == "" then Initials("")
    else
      var parts := Split(name.value, " ");
      if |parts| == 1 then
        var subparts := Split(parts[0], "_");
        if |subparts| > 1 then UpperPair(FirstChar(subparts[0]), FirstChar(subparts[1]))
        else Initials(Upper(Slice(parts[0], 2)))
      else UpperPair(FirstChar(parts[0]), FirstChar(parts[1]))
  }

  /** A name with a space whose first two parts are non-empty: the initials of those parts. */
  lemma InitialsOfSpacedName(name: string)
    requires ' ' in name
    ensures var parts := Split(name, " ");
      && |parts| >= 2
      && (parts[0] != "" && parts[1] != "" ==>
            GetInitials(Some(name)) == Initials(Upper([parts[0][0], parts[1][0]]))
            && |GetInitials(Some(name)).text| == 2)
  {
    SplitOnChar(name, ' ');
  }

  /** One word with an underscore whose first two parts are non-empty: the initials of those parts. */
  lemma InitialsOfUnderscoredWord(name: string)
    requires ' ' !in name && '_' in name
    ensures var parts := Split(name, "_");
      && |parts| >= 2
      && (parts[0] != "" && parts[1] != "" ==>
            GetInitials(Some(name)) == Initials(Upper([parts[0][0], parts[1][0]]))
            && |GetInitials(Some(name)).text| == 2)
  {
    SplitWithoutChar(name, ' ');
    SplitOnChar(name, '_');
  }

  /** One word with neither a space nor an underscore: its first two characters, upper-cased. */
  lemma InitialsOfPlainWord(name: string)
    requires name != "" && ' ' !in name && '_' !in name
    ensures GetInitials(Some(name)) == Initials(Upper(Slice(name, 2)))
    ensures 1 <= |GetInitials(Some(name)).text| <= 2
  {
    SplitWithoutChar(name, ' ');
    SplitWithoutChar(name, '_');
  }

  /** One step of Split on a text that does not start with the separator. */
  lemma NoCutStep(s: string, c: char, tail: string, rest: seq<string>)
    requires |s| >= 1 && s[0] != c && tail == s[1..] && Split(tail, [c]) == rest
    ensures Split(s, [c]) == [[s[0]] + rest[0]] + rest[1..]
  {
    assert s[..1] == [s[0]];
  }

  /**
   * A trailing space leaves an empty second part: its `[0]` is undefined and
   * the avatar reads "AUNDEFINED". A name that is a single space has two
   * empty parts and makes the header throw.
   */
  lemma TrailingSpaceShowsUndefined()
    ensures GetInitials(Some("Ann ")) == Initials("AUNDEFINED")
    ensures GetInitials(Some(" ")) == Throws
  {
    assert Split("", " ") == [""];
    assert Split(" ", " ") == ["", ""];
    NoCutStep("n ", ' ', " ", ["", ""]);
    assert ['n'] + "" == "n";
    assert Split("n ", " ") == ["n", ""];
    NoCutStep("nn ", ' ', "n ", ["n", ""]);
    assert ['n'] + "n" == "nn";
    assert Split("nn ", " ") == ["nn", ""];
    NoCutStep("Ann ", ' ', "nn ", ["nn", ""]);
    assert ['A'] + "nn" == "Ann";
    assert Split("Ann ", " ") == ["Ann", ""];
    var t := Upper("Aundefined");
    assert t == "AUNDEFINED" by {
      assert |t| == 10;
      forall i | 0 <= i < 10 ensures t[i] == "AUNDEFINED"[i] {
        assert t[i] == UpperChar("Aundefined"[i]);
      }
    }
  }

  /**
   * The initials of the first two non-empty words (or, for one word, of its
   * first two non-empty underscore-separated parts, or its first two
   * characters): never more than two upper-case characters, and never a
   * throw.
   */
  function InitialsOfWords(name: Option<string>): (r: string)
    ensures |r| <= 2 && NoLowerAscii(r)
  {
    if name.None? then ""
    else
      var words := NonEmpty(Split(name.value, " "));
      if |words| >= 2 then
        assert words[0] in words && words[1] in words;
        Upper([words[0][0], words[1][0]])
      else if |words| == 0 then ""
      else
        assert words[0] in words;
        var subparts := NonEmpty(Split(words[0], "_"));
        if |subparts| >= 2 then
          assert subparts[0] in subparts && subparts[1] in subparts;
          Upper([subparts[0][0], subparts[1][0]])
        else if |subparts| == 1 then Upper(Slice(subparts[0], 2))
        else ""
  }

  /**
   * On names without empty parts (no leading, trailing or doubled
   * separator) the corrected initials are what `getInitials` shows.
   */
  lemma InitialsOfWordsAgrees(name: string)
    requires name != ""
    requires forall p :: p in Split(name, " ") ==> p != ""
    requires ' ' !in name ==> forall p :: p in Split(name, "_") ==> p != ""
    ensures GetInitials(Some(name)) == Initials(InitialsOfWords(Some(name)))
  {
    var parts := Split(name, " ");
    NonEmptyKeepsAll(parts);
    SplitOnChar(name, ' ');
    if ' ' !in name {
      SplitWithoutChar(name, ' ');
      NonEmptyKeepsAll(Split(name, "_"));
      SplitOnChar(name, '_');
      if '_' !in name {
        SplitWithoutChar(name, '_');
      }
    } else {
      assert parts[0] in parts && parts[1] in parts;
    }
  }

  /** The role label next to the name: the role with its first letter upper-cased. */
  function RoleLabel(role: string): (r: string)
    ensures |r| == |role|
    ensures role != "" ==> r[0] == UpperChar(role[0]) && r[1..] == role[1..]
  {
    Capitalize(role)
  }

  lemma RoleLabels()
    ensures RoleLabel(ManagerRole) == "Manager" && RoleLabel(EmployeeRole) == "Employee"
  {
  }
}
