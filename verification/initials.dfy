/**
 * The avatar initials shown in the dashboard header: split the display name
 * on single spaces, keep the first character of each piece, join and upper-case.
 */
module Initials {
  import opened Wrappers

  function CountSpaces(s: string): (n: nat)
    ensures n <= |s|
  {
    if s == [] then 0 else CountSpaces(s[..|s| - 1]) + (if s[|s| - 1] == ' ' then 1 else 0)
  }

  /**
   * `s.split(" ")`: the pieces between single spaces. Two adjacent spaces, or a
   * space at either end, give an empty piece, so there is always one piece more
   * than there are spaces.
   */
  function Split(s: string): (pieces: seq<string>)
    ensures |pieces| == CountSpaces(s) + 1
    ensures forall i :: 0 <= i < |pieces| ==> ' ' !in pieces[i]
  {
    if s == [] then [[]]
    else
      var init := Split(s[..|s| - 1]);
      if s[|s| - 1] == ' ' then init + [[]]
      else init[..|init| - 1] + [init[|init| - 1] + [s[|s| - 1]]]
  }

  /** `pieces.join(" ")`. */
  function Join(pieces: seq<string>): string
    requires pieces != []
  {
    if |pieces| == 1 then pieces[0] else Join(pieces[..|pieces| - 1]) + " " + pieces[|pieces| - 1]
  }

  lemma {:induction false} JoinSnocLast(pieces: seq<string>, c: char)
    requires pieces != []
    ensures Join(pieces[..|pieces| - 1] + [pieces[|pieces| - 1] + [c]]) == Join(pieces) + [c]
  {
    var q := pieces[..|pieces| - 1] + [pieces[|pieces| - 1] + [c]];
    if |pieces| > 1 {
      assert q[..|q| - 1] == pieces[..|pieces| - 1];
    }
  }

  /** Splitting loses nothing: joining the pieces back with spaces gives the name again. */
  lemma {:induction false} JoinSplit(s: string)
    ensures Join(Split(s)) == s
  {
    if s != [] {
      var init := Split(s[..|s| - 1]);
      JoinSplit(s[..|s| - 1]);
      if s[|s| - 1] == ' ' {
        var q := init + [[]];
        assert q[..|q| - 1] == init;
      } else {
        JoinSnocLast(init, s[|s| - 1]);
      }
      assert s[..|s| - 1] + [s[|s| - 1]] == s;
    }
  }

  /** `n[0]` joined into a string: the first character, or nothing for an empty piece. */
  function FirstChars(pieces: seq<string>): (r: string)
    ensures |r| <= |pieces|
  {
    if pieces == [] then []
    else FirstChars(pieces[..|pieces| - 1]) + (if pieces[|pieces| - 1] == [] then [] else [pieces[|pieces| - 1][0]])
  }

  predicate IsLower(c: char) {
    'a' <= c <= 'z'
  }

  /** `toUpperCase` on ASCII letters; every other character is kept. */
  function ToUpper(s: string): (r: string)
    ensures |r| == |s|
    ensures forall i :: 0 <= i < |s| ==> !IsLower(r[i])
    ensures forall i :: 0 <= i < |s| ==> if IsLower(s[i]) then r[i] as int == s[i] as int - 32 else r[i] == s[i]
  {
    seq(|s|, i requires 0 <= i < |s| => if IsLower(s[i]) then (s[i] as int - 32) as char else s[i])
  }

  /** `userName?.split(" ").map((n) => n[0]).join("").toUpperCase()`. */
  function InitialsOf(userName: Option<string>): (r: Option<string>)
    ensures r.None? <==> userName.None?
    ensures r.Some? ==> |r.value| <= CountSpaces(userName.value) + 1
    ensures r.Some? ==> forall i :: 0 <= i < |r.value| ==> !IsLower(r.value[i])
  {
    match userName
    case None => None
    case Some(name) => Some(ToUpper(FirstChars(Split(name))))
  }

  /**
   * An independent reading of the same string, position by position: a
   * character is an initial when it is not a space and either opens the name
   * or follows a space.
   */
  function WordStarts(s: string): string {
    if s == [] then []
    else
      var k := |s| - 1;
      WordStarts(s[..k]) + (if s[k] != ' ' && (k == 0 || s[k - 1] == ' ') then [s[k]] else [])
  }

  /** The last piece is empty exactly when the name is empty or ends in a space. */
  lemma LastPieceEmpty(s: string)
    ensures var p := Split(s); p[|p| - 1] == [] <==> s == [] || s[|s| - 1] == ' '
  {
  }

  lemma FirstCharsSnoc(pieces: seq<string>, x: string)
    ensures FirstChars(pieces + [x]) == FirstChars(pieces) + (if x == [] then [] else [x[0]])
  {
    assert (pieces + [x])[..|pieces|] == pieces;
  }

  /** A character that continues the last piece adds an initial only when that piece was empty. */
  lemma {:induction false} SplitSnocLetter(p: string, c: char)
    requires c != ' '
    ensures FirstChars(Split(p + [c])) ==
      FirstChars(Split(p)) + (if p == [] || p[|p| - 1] == ' ' then [c] else [])
  {
    var s := p + [c];
    assert s[..|s| - 1] == p;
    var init := Split(p);
    var last := init[|init| - 1];
    LastPieceEmpty(p);
    FirstCharsSnoc(init[..|init| - 1], last + [c]);
    FirstCharsSnoc(init[..|init| - 1], last);
    assert init[..|init| - 1] + [last] == init;
  }

  lemma {:induction false} SplitSnocSpace(p: string)
    ensures FirstChars(Split(p + [' '])) == FirstChars(Split(p))
  {
    var s := p + [' '];
    assert s[..|s| - 1] == p;
    FirstCharsSnoc(Split(p), []);
  }

  /** Taking the first character of every piece picks out exactly the word starts. */
  lemma {:induction false} FirstCharsAreWordStarts(s: string)
    ensures FirstChars(Split(s)) == WordStarts(s)
  {
    if s != [] {
      var k := |s| - 1;
      var p := s[..k];
      assert p + [s[k]] == s;
      FirstCharsAreWordStarts(p);
      if s[k] == ' ' {
        SplitSnocSpace(p);
      } else {
        SplitSnocLetter(p, s[k]);
      }
    }
  }

  /** The initials are the upper-cased word starts. */
  lemma InitialsAreWordStarts(name: string)
    ensures InitialsOf(Some(name)) == Some(ToUpper(WordStarts(name)))
  {
    FirstCharsAreWordStarts(name);
  }

  /** A space adds no initial. */
  lemma WordStartsSpace(p: string)
    ensures WordStarts(p + [' ']) == WordStarts(p)
  {
    assert (p + [' '])[..|p|] == p;
  }

  /** Letters that continue a word add no initial. */
  lemma {:induction false} WordStartsContinue(p: string, w: string)
    requires p != [] && p[|p| - 1] != ' '
    requires ' ' !in w
    ensures WordStarts(p + w) == WordStarts(p)
    decreases |w|
  {
    if w == [] {
      assert p + w == p;
    } else {
      var q := p + w[..|w| - 1];
      assert forall c :: c in w[..|w| - 1] ==> c in w;
      WordStartsContinue(p, w[..|w| - 1]);
      assert (p + w)[..|p + w| - 1] == q;
      assert (p + w)[|p + w| - 1] == w[|w| - 1] && w[|w| - 1] in w;
      assert q[|q| - 1] != ' ' by {
        if |w| > 1 {
          assert q[|q| - 1] == w[|w| - 2];
        }
      }
      assert (p + w)[|p + w| - 2] == q[|q| - 1];
    }
  }

  /** A letter at the start or after a space is an initial. */
  lemma WordStartsStart(p: string, c: char)
    requires p == [] || p[|p| - 1] == ' '
    requires c != ' '
    ensures WordStarts(p + [c]) == WordStarts(p) + [c]
  {
    assert (p + [c])[..|p|] == p;
  }

  /** A word after the start or after a space adds its first letter. */
  lemma WordStartsWord(p: string, w: string)
    requires p == [] || p[|p| - 1] == ' '
    requires w != [] && ' ' !in w
    ensures WordStarts(p + w) == WordStarts(p) + [w[0]]
  {
    assert w == [w[0]] + w[1..];
    WordStartsStart(p, w[0]);
    WordStartsContinue(p + [w[0]], w[1..]);
    SplitFirst(p, w);
  }

  lemma SplitFirst(p: string, w: string)
    requires w != []
    ensures (p + [w[0]]) + w[1..] == p + w
  {
    assert w == [w[0]] + w[1..];
  }

  lemma WordStartsJohnDoe()
    ensures WordStarts("John Doe") == "JD"
  {
    WordStartsWord([], "John");
    WordStartsSpace("John");
    WordStartsWord("John ", "Doe");
    assert [] + "John" == "John";
    assert "John" + " " == "John ";
    assert "John " + "Doe" == "John Doe";
  }

  lemma WordStartsLowerCase()
    ensures WordStarts("jo  doe") == "jd"
  {
    WordStartsWord([], "jo");
    WordStartsSpace("jo");
    WordStartsSpace("jo ");
    WordStartsWord("jo  ", "doe");
    assert [] + "jo" == "jo";
    assert "jo" + " " == "jo ";
    assert "jo " + " " == "jo  ";
    assert "jo  " + "doe" == "jo  doe";
  }

  lemma UpperCaseTwoLetters()
    ensures ToUpper("JD") == "JD"
    ensures ToUpper("jd") == "JD"
  {
    var a := ToUpper("JD");
    assert a[0] == 'J' && a[1] == 'D';
    var b := ToUpper("jd");
    assert b[0] == 'J' && b[1] == 'D';
  }

  /** "John Doe" is shown as "JD"; a lower-case name with a doubled space still gives one letter per word; an empty name shows nothing. */
  lemma InitialsExamples()
    ensures InitialsOf(Some("John Doe")) == Some("JD")
    ensures InitialsOf(Some("jo  doe")) == Some("JD")
    ensures InitialsOf(Some("")) == Some("")
  {
    InitialsAreWordStarts("John Doe");
    WordStartsJohnDoe();
    InitialsAreWordStarts("jo  doe");
    WordStartsLowerCase();
    UpperCaseTwoLetters();
  }
}
