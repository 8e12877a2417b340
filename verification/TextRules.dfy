/** What the normaliser's three text functions do, in terms of single characters. */
module TextRules {
  import opened Domain
  import opened JsonSchemas
  import opened Normalizer

  // ---- tokens ----

  /** A token is made character by character: ASCII letters in lower case and digits, nothing else. */
  lemma TokenOfCharacter(c: char)
    ensures 'a' <= c <= 'z' || '0' <= c <= '9' ==> EnumToken([c]) == [c]
    ensures 'A' <= c <= 'Z' ==> |EnumToken([c])| == 1 && EnumToken([c])[0] as int == c as int + 32
    ensures !('a' <= c <= 'z' || 'A' <= c <= 'Z' || '0' <= c <= '9') ==> EnumToken([c]) == ""
  {
    assert EnumToken([c][1..]) == "";
  }

  lemma {:induction false} TokenOfConcatenation(a: string, b: string)
    ensures EnumToken(a + b) == EnumToken(a) + EnumToken(b)
    decreases |a|
  {
    if a == "" {
      assert a + b == b;
    } else {
      assert (a + b)[1..] == a[1..] + b;
      TokenOfConcatenation(a[1..], b);
    }
  }

  // ---- stripping ----

  /** Horizontal and vertical white space, the four separators and the two Latin-1 spaces. */
  predicate Blank(c: char) {
    var code := c as int;
    9 <= code <= 13 || 28 <= code <= 32 || code == 133 || code == 160
  }

  lemma SpacesAreBlank(c: char)
    ensures IsSpace(c) <==> Blank(c)
  {}

  lemma {:induction false} LeftIsStripped(s: string) returns (left: string)
    ensures s == left + StripLeft(s) && forall c | c in left :: Blank(c)
    ensures StripLeft(s) != "" ==> !Blank(StripLeft(s)[0])
    decreases |s|
  {
    left := "";
    if s != "" {
      SpacesAreBlank(s[0]);
      if IsSpace(s[0]) {
        var more := LeftIsStripped(s[1..]);
        left := [s[0]] + more;
        assert s == [s[0]] + s[1..];
      }
    }
  }

  lemma {:induction false} RightIsStripped(s: string) returns (right: string)
    ensures s == StripRight(s) + right && forall c | c in right :: Blank(c)
    ensures var kept := StripRight(s); kept != "" ==> kept[0] == s[0] && !Blank(kept[|kept| - 1])
    decreases |s|
  {
    right := "";
    if s != "" {
      var n := |s| - 1;
      SpacesAreBlank(s[n]);
      if IsSpace(s[n]) {
        var more := RightIsStripped(s[..n]);
        right := more + [s[n]];
        assert s == s[..n] + [s[n]];
      }
    }
  }

  /** A stripped text is what is left between blank ends. */
  lemma StripIsExact(s: string) returns (left: string, right: string)
    ensures s == left + Strip(s) + right
    ensures forall c | c in left + right :: Blank(c)
    ensures var kept := Strip(s); kept != "" ==> !Blank(kept[0]) && !Blank(kept[|kept| - 1])
  {
    left := LeftIsStripped(s);
    right := RightIsStripped(StripLeft(s));
    assert left + (Strip(s) + right) == left + Strip(s) + right;
  }

  // ---- joining ----

  /** Joined texts are the stripped ones with one space between neighbours. */
  lemma {:induction false} JoinedOfConcatenation(a: seq<Json>, b: seq<Json>)
    requires a != [] && b != [] && forall item | item in a + b :: item.Text?
    ensures Joined(a + b) == Joined(a) + " " + Joined(b)
    ensures |a| == 1 ==> Joined(a) == Strip(a[0].text)
    decreases |a|
  {
    var rest := a[1..];
    assert (a + b)[1..] == rest + b && forall item | item in rest + b :: item in a + b;
    if |a| == 1 {
      assert rest + b == b;
    } else {
      JoinedOfConcatenation(rest, b);
      assert Joined(a) == Strip(a[0].text) + " " + Joined(rest);
    }
  }
}
