/** The `{{path}}` interpolator: token scanner, path lookup, and the walk over nested templates. */
module Template {
  import opened Types
  import Text

  // ---- The token expression ----

  predicate IsPathChar(c: char) {
    'a' <= c <= 'z' || 'A' <= c <= 'Z' || '0' <= c <= '9' || c == '_' || c == '.' || c == '[' || c == ']'
  }

  /** The characters of a path by their codes: digits, letters, and the four marks. */
  lemma PathChars(c: char)
    ensures var n := c as int;
            IsPathChar(c) <==>
              48 <= n <= 57 || 65 <= n <= 90 || 97 <= n <= 122 || n == 46 || n == 91 || n == 93 || n == 95
  {
  }

  /** A match: the template's text from `start` to `end`, and the captured path. */
  datatype Found = Found(start: nat, end: nat, path: string)

  predicate AllPath(s: string) {
    forall k :: 0 <= k < |s| ==> IsPathChar(s[k])
  }

  /** The expression read off declaratively: "{{", white space, a nonempty path up to `b`, white
      space, "}}". */
  predicate Splits(s: string, f: Found, a: nat, b: nat) {
    && f.start + 2 <= a < b <= f.end - 2 && f.end <= |s|
    && s[f.start..f.start + 2] == "{{"
    && Text.AllSpace(s[f.start + 2..a])
    && AllPath(s[a..b]) && f.path == s[a..b]
    && Text.AllSpace(s[b..f.end - 2])
    && s[f.end - 2..f.end] == "}}"
  }

  ghost predicate IsMatch(s: string, f: Found) {
    exists a: nat, b: nat :: Splits(s, f, a, b)
  }

  /** The end of the run of white space that starts at `i`. */
  function SkipSpace(s: string, i: nat): (j: nat)
    requires i <= |s|
    ensures i <= j <= |s|
    ensures Text.AllSpace(s[i..j])
    ensures j < |s| ==> !Text.IsSpace(s[j])
    decreases |s| - i
  {
    if i < |s| && Text.IsSpace(s[i]) then SkipSpace(s, i + 1) else i
  }

  /** The end of the run of path characters that starts at `i`. */
  function SkipPath(s: string, i: nat): (j: nat)
    requires i <= |s|
    ensures i <= j <= |s|
    ensures AllPath(s[i..j])
    ensures j < |s| ==> !IsPathChar(s[j])
    decreases |s| - i
  {
    if i < |s| && IsPathChar(s[i]) then SkipPath(s, i + 1) else i
  }

  /** The one candidate at `p`: take every run as far as it goes. */
  function MatchAt(s: string, p: nat): (m: Option<Found>)
    requires p <= |s|
    ensures m.Some? ==> m.value.start == p && p < m.value.end <= |s|
  {
    if p + 2 <= |s| && s[p..p + 2] == "{{" then
      var a := SkipSpace(s, p + 2);
      var b := SkipPath(s, a);
      var c := SkipSpace(s, b);
      if a < b && c + 2 <= |s| && s[c..c + 2] == "}}" then Some(Found(p, c + 2, s[a..b])) else None
    else None
  }

  /** A run has one end. */
  lemma SpaceEndsOnce(s: string, i: nat, j: nat)
    requires i <= j < |s| && Text.AllSpace(s[i..j]) && !Text.IsSpace(s[j])
    ensures SkipSpace(s, i) == j
    decreases j - i
  {
  }

  lemma PathEndsOnce(s: string, i: nat, j: nat)
    requires i <= j < |s| && AllPath(s[i..j]) && !IsPathChar(s[j])
    ensures SkipPath(s, i) == j
    decreases j - i
  {
  }

  lemma Disjoint(c: char)
    ensures !(Text.IsSpace(c) && IsPathChar(c))
    ensures c == '}' ==> !Text.IsSpace(c) && !IsPathChar(c)
  {
  }

  lemma SplitIsFound(s: string, f: Found, a: nat, b: nat)
    requires Splits(s, f, a, b)
    ensures MatchAt(s, f.start) == Some(f)
  {
    hide Text.IsSpace, IsPathChar, SkipSpace, SkipPath;
    assert s[f.end - 2] == s[f.end - 2..f.end][0];
    Disjoint(s[f.end - 2]);
    assert IsPathChar(s[a]) by {
      assert s[a] == s[a..b][0];
    }
    Disjoint(s[a]);
    assert b < f.end - 2 ==> Text.IsSpace(s[b]) by {
      assert b < f.end - 2 ==> s[b] == s[b..f.end - 2][0];
    }
    Disjoint(s[b]);
    hide Text.AllSpace, AllPath;
    SpaceEndsOnce(s, f.start + 2, a);
    PathEndsOnce(s, a, b);
    SpaceEndsOnce(s, b, f.end - 2);
  }

  lemma FoundSplits(s: string, f: Found)
    requires f.start <= |s| && MatchAt(s, f.start) == Some(f)
    ensures IsMatch(s, f)
  {
    hide Text.IsSpace, IsPathChar, SkipSpace, SkipPath, Text.AllSpace, AllPath;
    var a := SkipSpace(s, f.start + 2);
    assert Splits(s, f, a, SkipPath(s, a));
  }

  /** At a position the expression matches in at most one way, and `MatchAt` finds it: white space,
      path characters and braces are disjoint, so no run can give a character to the next. */
  lemma MatchIsUnique(s: string, f: Found)
    requires f.start <= |s|
    ensures IsMatch(s, f) <==> MatchAt(s, f.start) == Some(f)
  {
    hide MatchAt, Splits;
    if IsMatch(s, f) {
      var a: nat, b: nat :| Splits(s, f, a, b);
      SplitIsFound(s, f, a, b);
    }
    if MatchAt(s, f.start) == Some(f) {
      FoundSplits(s, f);
    }
  }

  // ---- Scanning ----

  /** The matches of one scan from `i`. */
  function Scan(s: string, i: nat): (ms: seq<Found>)
    requires i <= |s|
    decreases |s| - i
  {
    if i == |s| then []
    else
      var m := MatchAt(s, i);
      if m.Some? then [m.value] + Scan(s, m.value.end) else Scan(s, i + 1)
  }

  ghost predicate NoneIn(s: string, i: nat, j: nat) {
    forall f: Found :: i <= f.start < j ==> !IsMatch(s, f)
  }

  /** `ms` lists, from left to right, matches that do not overlap and between which none begins. */
  ghost predicate Leftmost(s: string, i: nat, ms: seq<Found>)
    requires i <= |s|
    decreases |ms|
  {
    if ms == [] then NoneIn(s, i, |s|)
    else
      && i <= ms[0].start < ms[0].end <= |s|
      && NoneIn(s, i, ms[0].start)
      && IsMatch(s, ms[0])
      && Leftmost(s, ms[0].end, ms[1..])
  }

  /** The scan is leftmost matching without overlap, and nothing else is. */
  lemma {:induction false} ScanIsLeftmost(s: string, i: nat, ms: seq<Found>)
    requires i <= |s|
    ensures Leftmost(s, i, ms) <==> ms == Scan(s, i)
    decreases |s| - i, |ms|
  {
    hide IsMatch, MatchAt;
    if i == |s| {
      if ms == [] {
        assert NoneIn(s, i, |s|);
      }
    } else {
      var m := MatchAt(s, i);
      if m.Some? {
        var f := m.value;
        MatchIsUnique(s, f);
        if ms != [] && ms[0].start == i {
          MatchIsUnique(s, ms[0]);
        }
        if ms != [] && ms[0] == f {
          ScanIsLeftmost(s, f.end, ms[1..]);
          assert ms == [f] + ms[1..];
          assert NoneIn(s, i, i);
        }
        assert Scan(s, i)[1..] == Scan(s, f.end);
      } else {
        forall f: Found | f.start == i
          ensures !IsMatch(s, f)
        {
          MatchIsUnique(s, f);
        }
        ScanIsLeftmost(s, i + 1, ms);
        assert ms != [] && ms[0].start == i ==> !IsMatch(s, ms[0]);
      }
    }
  }

  // ---- Replacing ----

  /** Literals are kept, each match is replaced by `sub` of it. */
  function Replaced(s: string, i: nat, ms: seq<Found>, sub: Found -> string): string
    requires i <= |s|
    decreases |ms|
  {
    if ms == [] || !(i <= ms[0].start <= ms[0].end <= |s|) then s[i..]
    else s[i..ms[0].start] + sub(ms[0]) + Replaced(s, ms[0].end, ms[1..], sub)
  }

  /** Literals and raw tokens together are the template. */
  lemma {:induction false} Rebuilds(s: string, i: nat, ms: seq<Found>)
    requires i <= |s| && Leftmost(s, i, ms)
    ensures Replaced(s, i, ms, (f: Found) => if f.start <= f.end <= |s| then s[f.start..f.end] else "") == s[i..]
    decreases |ms|
  {
    if ms != [] {
      Rebuilds(s, ms[0].end, ms[1..]);
      assert s[i..ms[0].start] + s[ms[0].start..ms[0].end] + s[ms[0].end..] == s[i..];
    }
  }

  lemma {:induction false} SameSubstitutes(s: string, i: nat, ms: seq<Found>, f: Found -> string, g: Found -> string)
    requires i <= |s| && forall m :: m in ms ==> f(m) == g(m)
    ensures Replaced(s, i, ms, f) == Replaced(s, i, ms, g)
    decreases |ms|
  {
    if ms != [] && i <= ms[0].start <= ms[0].end <= |s| {
      SameSubstitutes(s, ms[0].end, ms[1..], f, g);
    }
  }

  // ---- JSON values ----

  /** A number is kept as the text that prints it. `Native` is an inherited function. */
  datatype Json =
    | Null
    | Bool(b: bool)
    | Num(text: string)
    | Str(s: string)
    | Arr(items: seq<Json>)
    | Obj(entries: seq<(string, Json)>)
    | Native(source: string)

  /** The root of every lookup, and the functions that arrays (true) and objects inherit. */
  datatype Context = Context(root: Json, inherited: (bool, string) -> Option<string>)

  function Decimal(n: nat): string {
    if n < 10 then [('0' as int + n) as char] else Decimal(n / 10) + Decimal(n % 10)
  }

  /** The element whose index prints as `p`, among the first `n`. */
  function Element(items: seq<Json>, n: nat, p: string): Option<Json>
    requires n <= |items|
  {
    if n == 0 then None
    else if Decimal(n - 1) == p then Some(items[n - 1])
    else Element(items, n - 1, p)
  }

  function Entry(entries: seq<(string, Json)>, p: string): Option<Json> {
    if entries == [] then None
    else if entries[0].0 == p then Some(entries[0].1)
    else Entry(entries[1..], p)
  }

  function NativeOf(text: Option<string>): Option<Json> {
    if text.None? then None else Some(Native(text.value))
  }

  /** `p in v ? v[p] : undefined`, for an object or array `v`; None stands for undefined. */
  function Member(v: Json, p: string, inherited: (bool, string) -> Option<string>): Option<Json> {
    match v
    case Obj(entries) =>
      if Entry(entries, p).Some? then Entry(entries, p) else NativeOf(inherited(false, p))
    case Arr(items) =>
      if p == "length" then Some(Num(Decimal(|items|)))
      else if Element(items, |items|, p).Some? then Element(items, |items|, p)
      else NativeOf(inherited(true, p))
    case _ => None
  }

  /** `String(v)`: arrays are joined with commas, elements that are null print as nothing. */
  function Printed(v: Json): string {
    match v
    case Null => ""
    case Bool(b) => if b then "true" else "false"
    case Num(text) => text
    case Str(s) => s
    case Arr(items) => Joined(items)
    case Obj(_) => "[object Object]"
    case Native(source) => source
  }

  function Joined(items: seq<Json>): string {
    if items == [] then ""
    else if |items| == 1 then Printed(items[0])
    else Printed(items[0]) + "," + Joined(items[1..])
  }

  lemma {:induction false} JoinedConcat(a: seq<Json>, b: seq<Json>)
    requires a != [] && b != []
    ensures Joined(a + b) == Joined(a) + "," + Joined(b)
  {
    assert (a + b)[1..] == a[1..] + b;
    if |a| > 1 {
      JoinedConcat(a[1..], b);
    }
  }

  lemma {:induction false} DecimalDigits(n: nat)
    ensures Decimal(n) != "" && forall k :: 0 <= k < |Decimal(n)| ==> '0' <= Decimal(n)[k] <= '9'
  {
    if n >= 10 {
      DecimalDigits(n / 10);
      DecimalDigits(n % 10);
    }
  }

  /** Different indices print differently. */
  lemma {:induction false} DecimalInjective(m: nat, n: nat)
    requires Decimal(m) == Decimal(n)
    ensures m == n
  {
    DecimalDigits(m / 10);
    DecimalDigits(n / 10);
    var last := |Decimal(m)| - 1;
    if m >= 10 && n >= 10 {
      assert Decimal(m)[..last] == Decimal(m / 10) && Decimal(n)[..last] == Decimal(n / 10);
      assert Decimal(m)[last] == Decimal(m % 10)[0] && Decimal(n)[last] == Decimal(n % 10)[0];
      DecimalInjective(m / 10, n / 10);
    }
  }

  /** An index reads its element, and a property that is neither an index nor `length` is inherited. */
  lemma ArrayMember(items: seq<Json>, p: string, inherited: (bool, string) -> Option<string>)
    ensures forall k :: 0 <= k < |items| && p == Decimal(k) ==> Member(Arr(items), p, inherited) == Some(items[k])
    ensures p != "length" && (forall k :: 0 <= k < |items| ==> p != Decimal(k)) ==>
      Member(Arr(items), p, inherited) ==
        if inherited(true, p).Some? then Some(Native(inherited(true, p).value)) else None
    ensures Member(Arr(items), "length", inherited) == Some(Num(Decimal(|items|)))
  {
    forall k | 0 <= k < |items| && p == Decimal(k)
      ensures Member(Arr(items), p, inherited) == Some(items[k])
    {
      DecimalDigits(k);
      assert "length"[0] == 'l';
      ElementFound(items, |items|, k);
    }
    ElementMissing(items, |items|, p);
  }

  lemma {:induction false} ElementFound(items: seq<Json>, n: nat, k: nat)
    requires k < n <= |items|
    ensures Element(items, n, Decimal(k)) == Some(items[k])
  {
    if Decimal(n - 1) == Decimal(k) {
      DecimalInjective(n - 1, k);
    } else {
      ElementFound(items, n - 1, k);
    }
  }

  lemma {:induction false} ElementMissing(items: seq<Json>, n: nat, p: string)
    requires n <= |items|
    ensures (forall k :: 0 <= k < n ==> p != Decimal(k)) ==> Element(items, n, p).None?
  {
    if n > 0 {
      ElementMissing(items, n - 1, p);
    }
  }

  lemma {:induction false} EntryFound(entries: seq<(string, Json)>, p: string)
    requires forall j, k :: 0 <= j < k < |entries| ==> entries[j].0 != entries[k].0
    ensures forall k :: 0 <= k < |entries| && entries[k].0 == p ==> Entry(entries, p) == Some(entries[k].1)
    ensures (forall k :: 0 <= k < |entries| ==> entries[k].0 != p) ==> Entry(entries, p).None?
  {
    if entries != [] {
      EntryFound(entries[1..], p);
      forall k | 0 < k < |entries| && entries[k].0 == p
        ensures Entry(entries, p) == Some(entries[k].1)
      {
        assert entries[1..][k - 1] == entries[k];
      }
    }
  }

  predicate DistinctKeys(entries: seq<(string, Json)>) {
    forall j, k :: 0 <= j < k < |entries| ==> entries[j].0 != entries[k].0
  }

  /** In an object every key reads its own value, and any other name reads what objects inherit. */
  lemma ObjectMember(entries: seq<(string, Json)>, p: string, inherited: (bool, string) -> Option<string>)
    requires DistinctKeys(entries)
    ensures forall k :: 0 <= k < |entries| && entries[k].0 == p ==>
              Member(Obj(entries), p, inherited) == Some(entries[k].1)
    ensures (forall k :: 0 <= k < |entries| ==> entries[k].0 != p) ==>
              Member(Obj(entries), p, inherited) ==
                if inherited(false, p).Some? then Some(Native(inherited(false, p).value)) else None
  {
    EntryFound(entries, p);
  }

  /** The number that a string of digits denotes. */
  function Denotes(digits: string): int {
    if digits == "" then 0
    else 10 * Denotes(digits[..|digits| - 1]) + (digits[|digits| - 1] as int - '0' as int)
  }

  lemma {:induction false} DecimalDenotes(n: nat)
    ensures Denotes(Decimal(n)) == n
  {
    if n >= 10 {
      DecimalDenotes(n / 10);
      assert Decimal(n)[..|Decimal(n)| - 1] == Decimal(n / 10);
    }
  }
  // ---- Paths ----

  /** `path.split('.')`. */
  function Split(path: string): (parts: seq<string>)
    ensures |parts| >= 1
  {
    if path == "" then [""]
    else if path[0] == '.' then [""] + Split(path[1..])
    else
      var rest := Split(path[1..]);
      [[path[0]] + rest[0]] + rest[1..]
  }

  lemma SplitFirst(c: char, rest: string)
    ensures Split([c] + rest) ==
              if c == '.' then [""] + Split(rest) else [[c] + Split(rest)[0]] + Split(rest)[1..]
  {
  }

  lemma Graft(x: string, a: seq<string>, b: seq<string>)
    requires a != []
    ensures [x] + (a + b) == ([x] + a) + b
    ensures [x] + (a + b)[1..] == ([x] + a[1..]) + b
  {
  }

  lemma SplitConcatFirst(c: char, p: string, q: string)
    requires Split(p + "." + q) == Split(p) + Split(q)
    ensures Split([c] + (p + "." + q)) == Split([c] + p) + Split(q)
  {
    hide Split;
    SplitFirst(c, p + "." + q);
    SplitFirst(c, p);
    Graft(if c == '.' then "" else [c] + Split(p)[0], Split(p), Split(q));
  }

  lemma {:induction false} SplitConcat(p: string, q: string)
    ensures Split(p + "." + q) == Split(p) + Split(q)
  {
    assert Split("") == [""];
    hide Split;
    if p == "" {
      assert p + "." + q == ['.'] + q;
      SplitFirst('.', q);
    } else {
      SplitConcat(p[1..], q);
      SplitConcatFirst(p[0], p[1..], q);
      assert p + "." + q == [p[0]] + (p[1..] + "." + q) && p == [p[0]] + p[1..];
    }
  }

  function Dotted(parts: seq<string>): string
    requires parts != []
  {
    if |parts| == 1 then parts[0] else parts[0] + "." + Dotted(parts[1..])
  }

  lemma {:induction false} SplitWhole(part: string)
    requires '.' !in part
    ensures Split(part) == [part]
  {
    if part != "" {
      SplitWhole(part[1..]);
      assert part == [part[0]] + part[1..];
    }
  }

  /** Splitting undoes joining with dots. */
  lemma {:induction false} SplitOfDotted(parts: seq<string>)
    requires parts != [] && forall part :: part in parts ==> '.' !in part
    ensures Split(Dotted(parts)) == parts
  {
    SplitWhole(parts[0]);
    if |parts| > 1 {
      SplitOfDotted(parts[1..]);
      SplitConcat(parts[0], Dotted(parts[1..]));
      assert parts == [parts[0]] + parts[1..];
    }
  }

  function Walk(v: Json, parts: seq<string>, inherited: (bool, string) -> Option<string>): Option<Json>
    decreases |parts|
  {
    if parts == [] then Some(v)
    else
      var next := Member(v, parts[0], inherited);
      if next.None? then None else Walk(next.value, parts[1..], inherited)
  }

  lemma {:induction false} WalkConcat(v: Json, a: seq<string>, b: seq<string>,
                                      inherited: (bool, string) -> Option<string>)
    ensures Walk(v, a + b, inherited) ==
              if Walk(v, a, inherited).None? then None else Walk(Walk(v, a, inherited).value, b, inherited)
    decreases |a|
  {
    if a == [] {
      assert a + b == b;
    } else {
      assert (a + b)[1..] == a[1..] + b;
      var next := Member(v, a[0], inherited);
      if next.Some? {
        WalkConcat(next.value, a[1..], b, inherited);
      }
    }
  }

  function At(c: Context, path: string): Option<Json> {
    Walk(c.root, Split(path), c.inherited)
  }

  /** Looking up `p.q` is looking up `p` and then `q` in what is there. */
  lemma LookupComposes(c: Context, p: string, q: string)
    ensures At(c, p + "." + q) == if At(c, p).None? then None else At(c.(root := At(c, p).value), q)
  {
    SplitConcat(p, q);
    WalkConcat(c.root, Split(p), Split(q), c.inherited);
  }

  /** A path without a dot reads the member of that name. */
  lemma AtKey(c: Context, key: string)
    requires '.' !in key
    ensures At(c, key) == Member(c.root, key, c.inherited)
  {
    SplitWhole(key);
    var next := Member(c.root, key, c.inherited);
    if next.Some? {
      assert [key][1..] == [];
      assert Walk(next.value, [], c.inherited) == next;
    }
  }

  /** The loop walks the parts one by one and gives up at the first missing one. */
  method Lookup(c: Context, path: string) returns (value: Option<Json>)
    ensures value == At(c, path)
  {
    var parts := Split(path);
    var cur := c.root;
    for k := 0 to |parts|
      invariant At(c, path) == Walk(cur, parts[k..], c.inherited)
    {
      var next := Member(cur, parts[k], c.inherited);
      if next.None? {
        return None;
      }
      cur := next.value;
      assert parts[k..][1..] == parts[k + 1..];
    }
    value := Some(cur);
  }

  // ---- Interpolation ----

  /** What stands in for a token: nothing if the path leads nowhere or to null. */
  function TextAt(c: Context, path: string): string {
    var v := At(c, path);
    if v.None? then "" else Printed(v.value)
  }

  /** A string stands for itself, other scalars for their usual text, an object for a constant, and null
      and what is missing for nothing. */
  lemma TokenText(c: Context, path: string)
    ensures var v := At(c, path);
            var text := TextAt(c, path);
            match v
            case None => text == ""
            case Some(Null) => text == ""
            case Some(Bool(b)) => text == if b then "true" else "false"
            case Some(Num(n)) => text == n
            case Some(Str(s)) => text == s
            case Some(Arr(items)) => (items == [] ==> text == "") && (|items| == 1 ==> text == Printed(items[0]))
            case Some(Obj(_)) => text == "[object Object]"
            case Some(Native(f)) => text == f
  {
    var v := At(c, path);
    hide At;
    if v.Some? && v.value.Arr? {
      assert Printed(v.value) == Joined(v.value.items);
    }
  }

  function Substitute(c: Context): Found -> string {
    (f: Found) => TextAt(c, f.path)
  }

  function Rendered(s: string, c: Context): string {
    Replaced(s, 0, Scan(s, 0), Substitute(c))
  }

  function Moved(f: Found, d: nat): Found {
    Found(f.start + d, f.end + d, f.path)
  }

  function AllMoved(ms: seq<Found>, d: nat): (moved: seq<Found>)
    ensures |moved| == |ms| && forall k :: 0 <= k < |ms| ==> moved[k] == Moved(ms[k], d)
  {
    seq(|ms|, k requires 0 <= k < |ms| => Moved(ms[k], d))
  }

  /** Whether the expression matches depends on nothing to the left. */
  lemma MatchMoves(s: string, d: nat, f: Found)
    requires d <= |s|
    ensures IsMatch(s[d..], f) <==> IsMatch(s, Moved(f, d))
  {
    if IsMatch(s[d..], f) {
      var a: nat, b: nat :| Splits(s[d..], f, a, b);
      SplitsMove(s, d, f, a, b);
    }
    if IsMatch(s, Moved(f, d)) {
      var a: nat, b: nat :| Splits(s, Moved(f, d), a, b);
      SplitsMove(s, d, f, a - d, b - d);
    }
  }

  lemma SplitsMove(s: string, d: nat, f: Found, a: nat, b: nat)
    requires d <= |s|
    ensures Splits(s[d..], f, a, b) <==> Splits(s, Moved(f, d), a + d, b + d)
  {
    var t := s[d..];
    if f.start + 2 <= a < b <= f.end - 2 && f.end <= |t| {
      assert t[f.start..f.start + 2] == s[f.start + d..f.start + d + 2];
      assert t[f.start + 2..a] == s[f.start + d + 2..a + d];
      assert t[a..b] == s[a + d..b + d];
      assert t[b..f.end - 2] == s[b + d..f.end + d - 2];
      assert t[f.end - 2..f.end] == s[f.end + d - 2..f.end + d];
    }
  }

  lemma {:induction false} LeftmostMoves(s: string, d: nat, i: nat, ms: seq<Found>)
    requires d + i <= |s| && Leftmost(s[d..], i, ms)
    ensures Leftmost(s, d + i, AllMoved(ms, d))
    decreases |ms|
  {
    var until := if ms == [] then |s[d..]| else ms[0].start;
    forall f: Found | d + i <= f.start < d + until
      ensures !IsMatch(s, f)
    {
      if f.end >= d {
        var g := Found(f.start - d, f.end - d, f.path);
        MatchMoves(s, d, g);
        assert !IsMatch(s[d..], g);
      }
    }
    if ms != [] {
      MatchMoves(s, d, ms[0]);
      LeftmostMoves(s, d, ms[0].end, ms[1..]);
      assert AllMoved(ms, d)[1..] == AllMoved(ms[1..], d);
    }
  }

  lemma ReplacedFirst(s: string, i: nat, f: Found, ms: seq<Found>, sub: Found -> string)
    requires i <= f.start <= f.end <= |s|
    ensures Replaced(s, i, [f] + ms, sub) == s[i..f.start] + sub(f) + Replaced(s, f.end, ms, sub)
  {
  }

  lemma ReplacedMovesFirst(s: string, d: nat, i: nat, f: Found, rest: seq<Found>, c: Context)
    requires d <= |s| && i <= f.start <= f.end <= |s[d..]|
    requires Replaced(s, d + f.end, AllMoved(rest, d), Substitute(c)) == Replaced(s[d..], f.end, rest, Substitute(c))
    ensures Replaced(s, d + i, [Moved(f, d)] + AllMoved(rest, d), Substitute(c)) ==
            Replaced(s[d..], i, [f] + rest, Substitute(c))
  {
    hide TextAt, AllMoved, Replaced;
    ReplacedFirst(s[d..], i, f, rest, Substitute(c));
    ReplacedFirst(s, d + i, Moved(f, d), AllMoved(rest, d), Substitute(c));
    assert s[d..][i..f.start] == s[d + i..d + f.start];
  }

  lemma {:induction false} ReplacedMoves(s: string, d: nat, i: nat, ms: seq<Found>, c: Context)
    requires d + i <= |s| && Leftmost(s[d..], i, ms)
    ensures Replaced(s, d + i, AllMoved(ms, d), Substitute(c)) == Replaced(s[d..], i, ms, Substitute(c))
    decreases |ms|
  {
    hide TextAt, NoneIn, IsMatch, Substitute;
    if ms == [] {
      assert s[d + i..] == s[d..][i..];
    } else {
      var f, rest := ms[0], ms[1..];
      ReplacedMoves(s, d, f.end, rest, c);
      hide Replaced;
      ReplacedMovesFirst(s, d, i, f, rest, c);
      assert ms == [f] + rest && AllMoved(ms, d) == [Moved(f, d)] + AllMoved(rest, d);
    }
  }

  lemma ScanFromFirst(s: string, f: Found)
    requires f.start < f.end <= |s| && IsMatch(s, f) && NoneIn(s, 0, f.start)
    ensures Scan(s, 0) == [f] + AllMoved(Scan(s[f.end..], 0), f.end)
  {
    hide NoneIn, IsMatch, Scan, AllMoved;
    var moved := AllMoved(Scan(s[f.end..], 0), f.end);
    ScanIsLeftmost(s[f.end..], 0, Scan(s[f.end..], 0));
    LeftmostMoves(s, f.end, 0, Scan(s[f.end..], 0));
    assert ([f] + moved)[1..] == moved;
    ScanIsLeftmost(s, 0, [f] + moved);
  }

  /** What is put in for the leftmost token is never scanned again: the rest is rendered on its own. */
  lemma NeverRescanned(s: string, f: Found, c: Context)
    requires f.start < f.end <= |s| && IsMatch(s, f) && NoneIn(s, 0, f.start)
    ensures Rendered(s, c) == s[..f.start] + TextAt(c, f.path) + Rendered(s[f.end..], c)
  {
    hide TextAt, NoneIn, IsMatch, Replaced, Scan, AllMoved, Leftmost;
    var rest := Scan(s[f.end..], 0);
    ScanFromFirst(s, f);
    ScanIsLeftmost(s[f.end..], 0, rest);
    ReplacedFirst(s, 0, f, AllMoved(rest, f.end), Substitute(c));
    ReplacedMoves(s, f.end, 0, rest, c);
  }

  /** The template with every string in it rendered. */
  function Filled(t: Json, c: Context): (r: Json)
  {
    match t
    case Str(s) => Str(Rendered(s, c))
    case Arr(items) => Arr(seq(|items|, k requires 0 <= k < |items| => Filled(items[k], c)))
    case Obj(entries) =>
      Obj(seq(|entries|, k requires 0 <= k < |entries| => (entries[k].0, Filled(entries[k].1, c))))
    case _ => t
  }

  /** No token begins where there is no brace. */
  lemma NoBraceNoToken(s: string, i: nat, j: nat)
    requires i <= j <= |s| && '{' !in s[i..j]
    ensures NoneIn(s, i, j)
  {
    forall f: Found | i <= f.start < j
      ensures !IsMatch(s, f)
    {
      assert s[f.start] == s[i..j][f.start - i];
      assert f.start + 2 <= |s| ==> s[f.start..f.start + 2][0] == s[f.start];
    }
  }

  lemma NoBraceRendered(s: string, c: Context)
    requires '{' !in s
    ensures Rendered(s, c) == s
  {
    assert s[0..|s|] == s;
    NoBraceNoToken(s, 0, |s|);
    ScanIsLeftmost(s, 0, []);
  }

  /** A template of one token, white space allowed inside its braces, renders to the text of its path
      between the literals. */
  lemma OneToken(pre: string, w1: string, path: string, w2: string, post: string, c: Context)
    requires '{' !in pre && '{' !in post
    requires Text.AllSpace(w1) && Text.AllSpace(w2) && path != "" && AllPath(path)
    ensures Filled(Str(pre + "{{" + w1 + path + w2 + "}}" + post), c) == Str(pre + TextAt(c, path) + post)
  {
    var s := pre + "{{" + w1 + path + w2 + "}}" + post;
    var a := |pre| + 2 + |w1|;
    var b := a + |path|;
    var f := Found(|pre|, b + |w2| + 2, path);
    assert Splits(s, f, a, b) by {
      hide Text.IsSpace, IsPathChar;
      assert s[f.start..f.start + 2] == "{{";
      assert s[f.start + 2..a] == w1;
      assert s[a..b] == path;
      assert s[b..f.end - 2] == w2;
      assert s[f.end - 2..f.end] == "}}";
    }
    assert IsMatch(s, f);
    assert s[..f.start] == pre && s[0..f.start] == pre && s[f.end..] == post;
    NoBraceNoToken(s, 0, f.start);
    hide Rendered, TextAt, IsMatch, NoneIn, Splits;
    NeverRescanned(s, f, c);
    NoBraceRendered(post, c);
  }

  /** A name in braces becomes the value that the context has under that name. */
  lemma NameFilled(pre: string, name: string, value: string, post: string,
                   entries: seq<(string, Json)>, k: nat, inherited: (bool, string) -> Option<string>)
    requires '{' !in pre && '{' !in post && name != "" && AllPath(name) && '.' !in name
    requires DistinctKeys(entries) && k < |entries| && entries[k] == (name, Str(value))
    ensures Filled(Str(pre + "{{" + name + "}}" + post), Context(Obj(entries), inherited)) == Str(pre + value + post)
  {
    var c := Context(Obj(entries), inherited);
    assert pre + "{{" + "" + name + "" + "}}" + post == pre + "{{" + name + "}}" + post;
    OneToken(pre, "", name, "", post, c);
    AtKey(c, name);
    ObjectMember(entries, name, inherited);
    TokenText(c, name);
  }

  /** `path` occurs as a token somewhere in `t`. */
  ghost predicate Occurs(path: string, t: Json) {
    match t
    case Str(s) => exists f :: f in Scan(s, 0) && f.path == path
    case Arr(items) => exists k :: 0 <= k < |items| && Occurs(path, items[k])
    case Obj(entries) => exists k :: 0 <= k < |entries| && Occurs(path, entries[k].1)
    case _ => false
  }

  /** The output depends on a context only through what its tokens look up. */
  lemma {:induction false} DependsOnTokens(t: Json, c: Context, d: Context)
    requires forall path :: Occurs(path, t) ==> TextAt(c, path) == TextAt(d, path)
    ensures Filled(t, c) == Filled(t, d)
  {
    match t
    case Str(s) =>
      forall m | m in Scan(s, 0)
        ensures TextAt(c, m.path) == TextAt(d, m.path)
      {
        assert Occurs(m.path, t);
      }
      SameSubstitutes(s, 0, Scan(s, 0), Substitute(c), Substitute(d));
    case Arr(items) =>
      forall k | 0 <= k < |items|
        ensures Filled(items[k], c) == Filled(items[k], d)
      {
        forall path | Occurs(path, items[k]) ensures TextAt(c, path) == TextAt(d, path) {
          assert Occurs(path, t);
        }
        DependsOnTokens(items[k], c, d);
      }
      assert Filled(t, c).items == Filled(t, d).items;
    case Obj(entries) =>
      forall k | 0 <= k < |entries|
        ensures Filled(entries[k].1, c) == Filled(entries[k].1, d)
      {
        forall path | Occurs(path, entries[k].1) ensures TextAt(c, path) == TextAt(d, path) {
          assert Occurs(path, t);
        }
        DependsOnTokens(entries[k].1, c, d);
      }
      assert Filled(t, c).entries == Filled(t, d).entries;
    case _ =>
  }

  /** Strings may change, nothing else: lengths, keys, their order and every other value stay. */
  predicate SameShape(t: Json, r: Json) {
    match t
    case Str(_) => r.Str?
    case Arr(items) =>
      && r.Arr? && |r.items| == |items|
      && forall k :: 0 <= k < |items| ==> SameShape(items[k], r.items[k])
    case Obj(entries) =>
      && r.Obj? && |r.entries| == |entries|
      && forall k :: 0 <= k < |entries| ==>
           r.entries[k].0 == entries[k].0 && SameShape(entries[k].1, r.entries[k].1)
    case _ => r == t
  }

  lemma {:induction false} FilledKeepsShape(t: Json, c: Context)
    ensures SameShape(t, Filled(t, c))
  {
    match t
    case Arr(items) =>
      forall k | 0 <= k < |items| ensures SameShape(items[k], Filled(t, c).items[k]) {
        FilledKeepsShape(items[k], c);
      }
    case Obj(entries) =>
      forall k | 0 <= k < |entries| ensures SameShape(entries[k].1, Filled(t, c).entries[k].1) {
        FilledKeepsShape(entries[k].1, c);
      }
    case _ =>
  }

  /** A template without tokens is its own rendering. */
  lemma {:induction false} NoTokensNoChange(t: Json, c: Context)
    requires forall path :: !Occurs(path, t)
    ensures Filled(t, c) == t
  {
    match t
    case Str(s) =>
      if Scan(s, 0) != [] {
        assert Occurs(Scan(s, 0)[0].path, t);
      }
    case Arr(items) =>
      forall k | 0 <= k < |items| ensures Filled(items[k], c) == items[k] {
        forall path ensures !Occurs(path, items[k]) {
          assert !Occurs(path, t);
        }
        NoTokensNoChange(items[k], c);
      }
      assert Filled(t, c).items == items;
    case Obj(entries) =>
      forall k | 0 <= k < |entries| ensures Filled(entries[k].1, c) == entries[k].1 {
        forall path ensures !Occurs(path, entries[k].1) {
          assert !Occurs(path, t);
        }
        NoTokensNoChange(entries[k].1, c);
      }
      assert Filled(t, c).entries == entries;
    case _ =>
  }

  // ---- The method ----

  /** Assignment to a property: it keeps its place if it is there and goes last if it is not. */
  function Put(entries: seq<(string, Json)>, key: string, v: Json): seq<(string, Json)> {
    if entries == [] then [(key, v)]
    else if entries[0].0 == key then [(key, v)] + entries[1..]
    else [entries[0]] + Put(entries[1..], key, v)
  }

  lemma {:induction false} PutNew(entries: seq<(string, Json)>, key: string, v: Json)
    requires forall k :: 0 <= k < |entries| ==> entries[k].0 != key
    ensures Put(entries, key, v) == entries + [(key, v)]
  {
    if entries != [] {
      PutNew(entries[1..], key, v);
      assert entries == [entries[0]] + entries[1..];
    }
  }

  /** No object in `t` has a key twice. */
  predicate Keyed(t: Json) {
    match t
    case Arr(items) => forall k :: 0 <= k < |items| ==> Keyed(items[k])
    case Obj(entries) =>
      && DistinctKeys(entries)
      && forall k :: 0 <= k < |entries| ==> Keyed(entries[k].1)
    case _ => true
  }

  method Interpolate(t: Json, c: Context) returns (r: Json)
    requires Keyed(t)
    ensures r == Filled(t, c)
    decreases t
  {
    match t
    case Str(s) =>
      r := Str(Rendered(s, c));
    case Arr(items) =>
      var out := [];
      for k := 0 to |items|
        invariant out == Filled(t, c).items[..k]
      {
        var v := Interpolate(items[k], c);
        out := out + [v];
      }
      r := Arr(out);
    case Obj(entries) =>
      var out := [];
      for k := 0 to |entries|
        invariant out == Filled(t, c).entries[..k]
      {
        var v := Interpolate(entries[k].1, c);
        PutNew(out, entries[k].0, v);
        out := Put(out, entries[k].0, v);
      }
      r := Obj(out);
    case _ =>
      r := t;
  }
}
