/** `getInitials`, the text drawn inside every pin and in the layout's avatar:
    the first letters of the first and last space-separated words when the
    second word is non-empty, otherwise the first two characters, upper-cased.
    The two copies of the function are identical.

    JavaScript's `word[0]` on an empty word is `undefined`, and `+` turns it
    into the text "undefined" next to a character; two of them add up to
    `NaN`, whose missing `toUpperCase` throws. */
module Initials {
  import opened Wrappers
  import opened Text
  import opened Sequences

  /** `toUpperCase` called on `NaN`. */
  datatype Failure = NotAFunction

  const UndefinedText := "undefined"

  /** `word[0]`: the first character, or `undefined`. */
  function FirstChar(word: string): (r: Option<char>)
    ensures r.Some? <==> |word| > 0
    ensures r.Some? ==> r.value == word[0]
  {
    if |word| == 0 then None else Some(word[0])
  }

  /** `a + b` for two values that are each a one-character string or
      `undefined`. */
  function Plus(a: Option<char>, b: Option<char>): (r: Result<string, Failure>)
    ensures r.Err? <==> a.None? && b.None?
    ensures a.Some? && b.Some? ==> r == Ok([a.value, b.value])
    ensures a.None? && b.Some? ==> r == Ok(UndefinedText + [b.value])
    ensures a.Some? && b.None? ==> r == Ok([a.value] + UndefinedText)
  {
    match (a, b)
    case (Some(x), Some(y)) => Ok([x, y])
    case (None, Some(y)) => Ok(UndefinedText + [y])
    case (Some(x), None) => Ok([x] + UndefinedText)
    case (None, None) => Err(NotAFunction)
  }

  /** `s.substring(0, 2)`. */
  function Prefix2(s: string): (r: string)
    ensures |r| == if |s| < 2 then |s| else 2
    ensures r == s[..|r|]
  {
    if |s| < 2 then s else s[..2]
  }

  /** Whether the two-word branch is taken. */
  predicate UsesWords(name: string) {
    var words := Split(name);
    |words| > 1 && words[1] != []
  }

  /** `getInitials(name)`, the name being absent when nobody is logged in. */
  function GetInitials(name: Option<string>): (r: Result<string, Failure>)
    ensures name.None? || name == Some([]) ==> r == Ok([])
    ensures var n := name.GetOr([]);
            !UsesWords(n) ==> r == Ok(ToUpper(Prefix2(n)))
    ensures var n := name.GetOr([]); var words := Split(n);
            UsesWords(n) && words[0] != [] && Last(words) != [] ==>
              r == Ok([UpperChar(words[0][0]), UpperChar(Last(words)[0])])
    ensures var n := name.GetOr([]); var words := Split(n);
            UsesWords(n) && words[0] != [] && Last(words) == [] ==>
              r == Ok([UpperChar(words[0][0])] + UpperUndefinedText)
    ensures var n := name.GetOr([]); var words := Split(n);
            UsesWords(n) && words[0] == [] && Last(words) != [] ==>
              r == Ok(UpperUndefinedText + [UpperChar(Last(words)[0])])
    ensures var n := name.GetOr([]); var words := Split(n);
            r.Err? <==> UsesWords(n) && words[0] == [] && Last(words) == []
  {
    var n := name.GetOr([]);
    var words := Split(n);
    if |words| > 1 && words[1] != [] then
      var a, b := FirstChar(words[0]), FirstChar(Last(words));
      var joined :- Plus(a, b);
      UpperOfPlus(a, b);
      Ok(ToUpper(joined))
    else Ok(ToUpper(Prefix2(n)))
  }

  /** "undefined" in upper case. */
  const UpperUndefinedText := "UNDEFINED"

  /** Upper-casing the sum of two initials upper-cases each character, the
      text "undefined" included. */
  lemma UpperOfPlus(a: Option<char>, b: Option<char>)
    requires Plus(a, b).Ok?
    ensures a.Some? && b.Some? ==> ToUpper(Plus(a, b).value) == [UpperChar(a.value), UpperChar(b.value)]
    ensures a.Some? && b.None? ==> ToUpper(Plus(a, b).value) == [UpperChar(a.value)] + UpperUndefinedText
    ensures a.None? && b.Some? ==> ToUpper(Plus(a, b).value) == UpperUndefinedText + [UpperChar(b.value)]
  {
    UpperUndefinedIsText();
    match (a, b)
    case (Some(x), Some(y)) =>
      assert ToUpper([x, y]) == [UpperChar(x), UpperChar(y)];
    case (Some(x), None) =>
      UpperConcat([x], UndefinedText);
      assert ToUpper([x]) == [UpperChar(x)];
    case (None, Some(y)) =>
      UpperConcat(UndefinedText, [y]);
      assert ToUpper([y]) == [UpperChar(y)];
  }

  lemma UpperUndefinedIsText()
    ensures ToUpper(UndefinedText) == UpperUndefinedText
  {
    var u := ToUpper(UndefinedText);
    assert u[0] == 'U' && u[1] == 'N' && u[2] == 'D' && u[3] == 'E' && u[4] == 'F';
    assert u[5] == 'I' && u[6] == 'N' && u[7] == 'E' && u[8] == 'D';
  }

  /** `toUpperCase` works character by character. */
  lemma UpperConcat(a: string, b: string)
    ensures ToUpper(a + b) == ToUpper(a) + ToUpper(b)
  {
    var l, r := ToUpper(a + b), ToUpper(a) + ToUpper(b);
    forall i | 0 <= i < |l| ensures l[i] == r[i] {
      if i < |a| {
        assert (a + b)[i] == a[i];
      } else {
        assert (a + b)[i] == b[i - |a|];
      }
    }
  }

  /** A name that neither starts nor ends with a space gets at most two
      characters. The bound rests on upper-casing keeping one character per
      character, which holds for the ASCII-only `Text.ToUpper`; the
      runtime's `toUpperCase` turns 'ß' into "SS", so "ßa" gives "SSA". */
  lemma InitialsAtMostTwo(name: string)
    requires name == [] || (name[0] != ' ' && name[|name| - 1] != ' ')
    ensures GetInitials(Some(name)).Ok?
    ensures |GetInitials(Some(name)).value| <= 2
  {
    if name != [] {
      SplitFirstPiece(name);
      SplitLastPiece(name);
      var words := Split(name);
      if UsesWords(name) {
        assert words[0] != [] && Last(words) != [];
      } else {
        assert |Prefix2(name)| <= 2;
      }
    }
  }

  /** Two words give the two initials. */
  lemma TwoWordsExample()
    ensures GetInitials(Some("Ann Lee")) == Ok("AL")
  {
    assert "Ann Lee"[..3] == "Ann" && "Ann Lee"[4..] == "Lee";
    SplitAt("Ann Lee", 3);
    var words := Split("Ann Lee");
    assert words == ["Ann", "Lee"];
    assert UsesWords("Ann Lee") && words[0][0] == 'A' && Last(words)[0] == 'L';
    assert [UpperChar('A'), UpperChar('L')] == "AL";
  }

  /** An empty second piece falls back to the first two characters. */
  lemma DoubleSpaceExample()
    ensures GetInitials(Some("a  b")) == Ok("A ")
  {
    assert "a  b"[..1] == "a" && "a  b"[2..] == " b";
    SplitAt("a  b", 1);
    assert Split("a  b")[1] == [] by {
      assert " b"[..0] == [];
      SplitAt(" b", 0);
    }
    assert Prefix2("a  b") == "a ";
    assert ToUpper("a ") == "A ";
  }

  /** A trailing space brings in the text "undefined". */
  lemma TrailingSpaceExample()
    ensures GetInitials(Some("Ann Lee ")) == Ok("AUNDEFINED")
  {
    SplitWithTrailingSpace();
    UpperUndefined();
    var words := Split("Ann Lee ");
    assert FirstChar(words[0]) == Some('A') && FirstChar(Last(words)) == None;
    assert ['A'] + UndefinedText == "Aundefined";
  }

  lemma SplitWithTrailingSpace()
    ensures Split("Ann Lee ") == ["Ann", "Lee", ""]
  {
    assert "Ann Lee " == "Ann" + " " + ("Lee" + " ");
    SplitTwoWordsAndSpace("Ann", "Lee");
  }

  /** Two words followed by a space split into the words and an empty
      piece. */
  lemma SplitTwoWordsAndSpace(a: string, b: string)
    requires ' ' !in a && ' ' !in b
    ensures Split(a + " " + (b + " ")) == [a, b, ""]
  {
    SplitWordAndSpace(b);
    SplitConcat(a, b + " ");
  }

  /** A word followed by a space splits into the word and an empty piece. */
  lemma SplitWordAndSpace(b: string)
    requires ' ' !in b
    ensures Split(b + " ") == [b, []]
  {
    assert b + " " == b + " " + [];
    SplitConcat(b, []);
    SplitNoSpace([]);
  }

  lemma UpperUndefined()
    ensures ToUpper("Aundefined") == "AUNDEFINED"
  {
    var u := ToUpper("Aundefined");
    assert u[0] == 'A' && u[1] == 'U' && u[2] == 'N' && u[3] == 'D' && u[4] == 'E';
    assert u[5] == 'F' && u[6] == 'I' && u[7] == 'N' && u[8] == 'E' && u[9] == 'D';
  }

  /** A word between a leading and a trailing space makes `getInitials`
      throw. */
  lemma SurroundingSpacesExample()
    ensures GetInitials(Some(" Ann ")) == Err(NotAFunction)
  {
    assert " Ann " == [] + " " + ("Ann" + " ");
    SplitTwoWordsAndSpace([], "Ann");
    assert Split(" Ann ") == ["", "Ann", ""];
  }

  predicate IsWord(piece: string) {
    piece != []
  }

  /** The pieces of the name that are not empty, in order. */
  function Words(pieces: seq<string>): (r: seq<string>)
    ensures IsSubsequence(r, pieces)
    ensures forall i :: 0 <= i < |r| ==> r[i] != [] && r[i] in pieces
    ensures forall p :: p in pieces && p != [] ==> p in r
    ensures forall p :: p != [] ==> multiset(r)[p] == multiset(pieces)[p]
    ensures (forall i :: 0 <= i < |pieces| ==> pieces[i] != []) ==> r == pieces
  {
    FilterWords(pieces);
    var r := Filter(pieces, IsWord);
    forall i | 0 <= i < |r| ensures r[i] != [] && r[i] in pieces {
      assert IsWord(r[i]);
      assert r[i] in multiset(r);
      FilterCounts(pieces, IsWord, r[i]);
    }
    r
  }

  lemma FilterWords(pieces: seq<string>)
    ensures var r := Filter(pieces, IsWord);
            && (forall i :: 0 <= i < |r| ==> r[i] in pieces)
            && (forall p :: p in pieces && p != [] ==> p in r)
            && (forall p :: p != [] ==> multiset(r)[p] == multiset(pieces)[p])
            && ((forall i :: 0 <= i < |pieces| ==> pieces[i] != []) ==> r == pieces)
  {
    var r := Filter(pieces, IsWord);
    forall p ensures multiset(r)[p] == if IsWord(p) then multiset(pieces)[p] else 0 {
      FilterCounts(pieces, IsWord, p);
    }
    forall p | p in pieces && p != [] ensures p in r {
      assert p in multiset(pieces);
      assert multiset(r)[p] > 0;
    }
    forall i | 0 <= i < |r| ensures r[i] in pieces {
      assert r[i] in multiset(r);
    }
    if forall i :: 0 <= i < |pieces| ==> pieces[i] != [] {
      FilterKeepsAll(pieces, IsWord);
    }
  }

  /** Initials taken from the first and the last non-empty word, or from the
      only word: the same result as `GetInitials` on names without stray
      spaces, and never "undefined" nor a failure otherwise. Its length
      bound, like `InitialsAtMostTwo`'s, holds for one-to-one upper-casing
      only. */
  function GetInitialsCorrected(name: Option<string>): (r: string)
    ensures |r| <= 2
    ensures ' ' !in r
    ensures r == [] <==> forall i :: 0 <= i < |name.GetOr([])| ==> name.GetOr([])[i] == ' '
  {
    var n := name.GetOr([]);
    var words := Words(Split(n));
    NoWordsIffAllSpaces(n);
    if |words| >= 2 then [UpperChar(words[0][0]), UpperChar(Last(words)[0])]
    else if |words| == 1 then
      assert words[0] != [];
      ToUpper(Prefix2(words[0]))
    else []
  }

  /** A string has no non-empty piece exactly when it is made of spaces. */
  lemma {:induction false} NoWordsIffAllSpaces(s: string)
    ensures Words(Split(s)) == [] <==> forall i :: 0 <= i < |s| ==> s[i] == ' '
    decreases |s|
  {
    if ' ' in s {
      var i := IndexOf(s, ' ');
      var tail := s[i + 1..];
      assert Split(s) == [s[..i]] + Split(tail);
      assert Split(s)[1..] == Split(tail);
      NoWordsIffAllSpaces(tail);
      assert (forall j :: 0 <= j < |s| ==> s[j] == ' ') <==>
             s[..i] == [] && forall j :: 0 <= j < |tail| ==> tail[j] == ' ' by {
        if s[..i] == [] {
          assert forall j :: i < j < |s| ==> s[j] == tail[j - i - 1];
        } else {
          assert s[0] != ' ';
        }
      }
    } else {
      assert Split(s) == [s];
      if s != [] {
        assert s[0] != ' ';
      }
    }
  }

  /** Where no piece is empty (no leading, trailing or repeated space) the
      correction agrees with the code. */
  lemma CorrectionAgrees(name: string)
    requires forall i :: 0 <= i < |Split(name)| ==> Split(name)[i] != []
    ensures GetInitials(Some(name)) == Ok(GetInitialsCorrected(Some(name)))
  {
    var words := Split(name);
    if |words| == 1 {
      assert words == [name];
    }
  }
}
