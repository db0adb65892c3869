/** White space as JavaScript's `trim` and `\s` see it. */
module Text {

  predicate IsSpace(c: char) {
    || '\t' <= c <= '\r'
    || c == ' '
    || c == '\U{00A0}'
    || c == '\U{1680}'
    || '\U{2000}' <= c <= '\U{200A}'
    || c == '\U{2028}'
    || c == '\U{2029}'
    || c == '\U{202F}'
    || c == '\U{205F}'
    || c == '\U{3000}'
    || c == '\U{FEFF}'
  }

  function Trim(s: string): string {
    if s == "" then ""
    else if IsSpace(s[0]) then Trim(s[1..])
    else if IsSpace(s[|s| - 1]) then Trim(s[..|s| - 1])
    else s
  }

  predicate AllSpace(s: string) {
    forall k :: 0 <= k < |s| ==> IsSpace(s[k])
  }

  /** Trimming takes white space off both ends and stops at the first character that is none. */
  lemma {:induction false} TrimKeepsMiddle(s: string) returns (before: string, after: string)
    ensures s == before + Trim(s) + after && AllSpace(before) && AllSpace(after)
    ensures Trim(s) != "" ==> !IsSpace(Trim(s)[0]) && !IsSpace(Trim(s)[|Trim(s)| - 1])
  {
    hide IsSpace;
    if s == "" {
      before, after := "", "";
    } else if IsSpace(s[0]) {
      before, after := TrimKeepsMiddle(s[1..]);
      before := [s[0]] + before;
    } else if IsSpace(s[|s| - 1]) {
      before, after := TrimKeepsMiddle(s[..|s| - 1]);
      after := after + [s[|s| - 1]];
    } else {
      before, after := "", "";
    }
  }

  /** Nothing is left of a string exactly if it is all white space. */
  lemma TrimmedAway(s: string)
    ensures Trim(s) == "" <==> AllSpace(s)
  {
    hide IsSpace, Trim;
    var before, after := TrimKeepsMiddle(s);
    if Trim(s) != "" {
      assert s[|before|] == Trim(s)[0];
    }
  }

  /** The white space among the first 128 characters, written out. */
  lemma AsciiSpace(c: char)
    requires c < '\U{0080}'
    ensures IsSpace(c) <==> c in "\t\n\U{000B}\U{000C}\r "
  {
  }

  /** Trimming finds the middle whatever white space is around it. */
  lemma {:induction false} TrimFinds(before: string, middle: string, after: string)
    requires AllSpace(before) && AllSpace(after)
    requires middle != "" && !IsSpace(middle[0]) && !IsSpace(middle[|middle| - 1])
    ensures Trim(before + middle + after) == middle
    decreases |before| + |after|
  {
    hide IsSpace;
    var s := before + middle + after;
    if before != "" {
      TrimFinds(before[1..], middle, after);
      assert s[0] == before[0] && s[1..] == before[1..] + middle + after;
    } else if after != "" {
      TrimFinds(before, middle, after[..|after| - 1]);
      assert s[0] == middle[0] && s[|s| - 1] == after[|after| - 1];
      assert s[..|s| - 1] == before + middle + after[..|after| - 1];
    } else {
      assert s == middle;
    }
  }
}
