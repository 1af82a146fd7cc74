/** The string helpers of the page module: spreadsheet column letters, the thousands
    grouping of `formatN`, and the parse of the tag descriptor that the element
    builder `n` reads. Building the element itself is not part of this model. */
module Dom {
  import opened Js

  // ---------------------------------------------------------------------------
  // columnToLetter

  /** Bijective base 26 with the digits `A` = 1 … `Z` = 26, most significant first;
      nothing for a column of 0 or less. */
  function Letters(column: int): string
    decreases column
  {
    if column <= 0 then ""
    else Letters((column - 1) / 26) + [(65 + (column - 1) % 26) as char]
  }

  /** `columnToLetter(column)`: peel off the last digit until the column is used up. */
  method ColumnToLetter(column: int) returns (letter: string)
    ensures letter == Letters(column)
  {
    letter := "";
    var c := column;
    while c > 0
      invariant Letters(c) + letter == Letters(column)
      decreases c
    {
      var temp := (c - 1) % 26;
      assert Letters(c) == Letters((c - 1) / 26) + [(temp + 65) as char];
      assert (c - temp - 1) / 26 == (c - 1) / 26;
      letter := [(temp + 65) as char] + letter;
      c := (c - temp - 1) / 26;
    }
  }

  predicate IsUpper(c: char) {
    'A' <= c <= 'Z'
  }

  /** The number a string of capital letters stands for, A = 1 … Z = 26. */
  function LettersValue(s: string): nat
    requires forall i :: 0 <= i < |s| ==> IsUpper(s[i])
  {
    if |s| == 0 then 0
    else
      var c := s[|s| - 1];
      assert IsUpper(c);
      26 * LettersValue(s[..|s| - 1]) + ((c as int) - 64)
  }

  /** The output is empty exactly for columns of 0 or less, and holds capital letters
      only. */
  lemma {:induction false} LettersShape(column: int)
    ensures Letters(column) == "" <==> column <= 0
    ensures forall i :: 0 <= i < |Letters(column)| ==> IsUpper(Letters(column)[i])
    decreases column
  {
    if column > 0 {
      LettersShape((column - 1) / 26);
    }
  }

  /** Reading the letters back gives the column. */
  lemma {:induction false} LettersRoundTrip(column: nat)
    ensures forall i :: 0 <= i < |Letters(column)| ==> IsUpper(Letters(column)[i])
    ensures LettersValue(Letters(column)) == column
    decreases column
  {
    LettersShape(column);
    if column > 0 {
      var front := Letters((column - 1) / 26);
      LettersRoundTrip((column - 1) / 26);
      var s := Letters(column);
      assert s[..|s| - 1] == front;
    }
  }

  /** Every string of capital letters is the name of exactly one column. */
  lemma {:induction false} ValueRoundTrip(s: string)
    requires forall i :: 0 <= i < |s| ==> IsUpper(s[i])
    ensures Letters(LettersValue(s)) == s
    decreases |s|
  {
    if |s| > 0 {
      var front := s[..|s| - 1];
      var d := (s[|s| - 1] as int) - 64;
      ValueRoundTrip(front);
      var v := LettersValue(front);
      assert LettersValue(s) == 26 * v + d;
      assert (26 * v + d - 1) / 26 == v && (26 * v + d - 1) % 26 == d - 1;
      assert s == front + [s[|s| - 1]];
    }
  }

  // ---------------------------------------------------------------------------
  // formatN

  /** `\w` of a regular expression. */
  predicate IsWordChar(c: char) {
    ('a' <= c <= 'z') || ('A' <= c <= 'Z') || IsDigit(c) || c == '_'
  }

  /** The number of digits from position `p` on. */
  function DigitRun(s: string, p: nat): (r: nat)
    requires p <= |s|
    ensures p + r <= |s|
    decreases |s| - p
  {
    if p < |s| && IsDigit(s[p]) then 1 + DigitRun(s, p + 1) else 0
  }

  /** Where `/\B(?=(\d{3})+(?!\d))/` matches: not at a word boundary, and followed by
      a run of digits whose length is a positive multiple of three. */
  predicate GroupMark(s: string, p: nat)
    requires p <= |s|
  {
    0 < p && IsWordChar(s[p - 1]) && DigitRun(s, p) > 0 && DigitRun(s, p) % 3 == 0
  }

  /** The replacement with `,` at every match, from position `p` on. */
  function Grouping(s: string, p: nat): string
    requires p <= |s|
    decreases |s| - p
  {
    if p == |s| then ""
    else (if GroupMark(s, p) then "," else "") + [s[p]] + Grouping(s, p + 1)
  }

  /** `s.replace(/\B(?=(\d{3})+(?!\d))/g, ',')` */
  function AddCommas(s: string): string {
    Grouping(s, 0)
  }

  /** Digits grouped by three from the right. */
  function Grouped(d: string): string
    decreases |d|
  {
    if |d| <= 3 then d else Grouped(d[..|d| - 3]) + "," + d[|d| - 3..]
  }

  /** The text `toFixed` produced, with its integer part grouped. */
  function FormatFixed(fixed: string): string {
    var parts := Split(fixed, '.');
    Join([AddCommas(parts[0])] + parts[1..], '.')
  }

  /** What `formatN` returns: a text, or the number 0. */
  datatype Shown = Shown(s: string) | Zero

  /** `formatN(number, showDecimals, if0)`; `fixed` is the text
      `parseFloat(number).toFixed(showDecimals)`, since float formatting is not
      modelled, and an absent `if0` is the empty string. */
  function FormatN(number: Num, fixed: string, if0: string): Shown {
    if Truthy(number) then Shown(FormatFixed(fixed))
    else if if0 != "" then Shown(if0) else Zero
  }

  lemma {:induction false} DigitRunAll(d: string, p: nat)
    requires AllDigits(d) && p <= |d|
    ensures DigitRun(d, p) == |d| - p
    decreases |d| - p
  {
    if p < |d| {
      DigitRunAll(d, p + 1);
    }
  }

  lemma {:induction false} DigitRunTail(a: string, b: string, j: nat)
    requires j <= |b|
    ensures DigitRun(a + b, |a| + j) == DigitRun(b, j)
    decreases |b| - j
  {
    if j < |b| {
      assert (a + b)[|a| + j] == b[j];
      DigitRunTail(a, b, j + 1);
    }
  }

  /** The matches in `b` are the same inside `a + b`, except maybe at its start,
      which does not change when `a` ends in a non-word character. */
  lemma {:induction false} GroupingTail(a: string, b: string, j: nat)
    requires j <= |b|
    requires j == 0 ==> |a| == 0 || !IsWordChar(a[|a| - 1])
    ensures Grouping(a + b, |a| + j) == Grouping(b, j)
    decreases |b| - j
  {
    if j < |b| {
      GroupingTail(a, b, j + 1);
      GroupingTailStep(a, b, j);
    }
  }

  lemma GroupingTailStep(a: string, b: string, j: nat)
    requires j < |b|
    requires j == 0 ==> |a| == 0 || !IsWordChar(a[|a| - 1])
    requires Grouping(a + b, |a| + j + 1) == Grouping(b, j + 1)
    ensures Grouping(a + b, |a| + j) == Grouping(b, j)
  {
    GroupMarkTail(a, b, j);
    assert (a + b)[|a| + j] == b[j];
  }

  lemma GroupMarkTail(a: string, b: string, j: nat)
    requires j < |b|
    requires j == 0 ==> |a| == 0 || !IsWordChar(a[|a| - 1])
    ensures GroupMark(a + b, |a| + j) == GroupMark(b, j)
  {
    DigitRunTail(a, b, j);
    if j > 0 {
      assert (a + b)[|a| + j - 1] == b[j - 1];
    } else if |a| > 0 {
      assert (a + b)[|a| - 1] == a[|a| - 1];
    }
  }

  /** In a string of digits, a comma goes before each digit that is not the first and
      has a multiple of three digits from it to the end. */
  lemma {:induction false} MarkDigits(d: string, p: nat)
    requires AllDigits(d) && p < |d|
    ensures GroupMark(d, p) <==> 0 < p && (|d| - p) % 3 == 0
  {
    DigitRunAll(d, p);
  }

  /** No comma in fewer than four digits. */
  lemma {:induction false} GroupingShort(d: string, p: nat)
    requires AllDigits(d) && |d| <= 3 && p <= |d|
    ensures Grouping(d, p) == d[p..]
    decreases |d| - p
  {
    if p < |d| {
      MarkDigits(d, p);
      GroupingShort(d, p + 1);
      assert d[p..] == [d[p]] + d[p + 1..];
    }
  }

  lemma {:induction false} DigitsConcat(a: string, b: string)
    ensures AllDigits(a + b) <==> AllDigits(a) && AllDigits(b)
  {
    var d := a + b;
    if AllDigits(d) {
      forall i | 0 <= i < |a| ensures IsDigit(a[i]) {
        assert a[i] == d[i];
      }
      forall i | 0 <= i < |b| ensures IsDigit(b[i]) {
        assert b[i] == d[|a| + i];
      }
    }
  }

  /** Cutting the digits in front of a multiple of three digits. */
  lemma {:induction false} GroupingSplit(a: string, b: string, p: nat)
    requires AllDigits(a) && AllDigits(b) && |b| > 0 && |b| % 3 == 0 && p <= |a|
    ensures Grouping(a + b, p) == Grouping(a, p) + (if |a| > 0 then "," else "") + Grouping(b, 0)
    decreases |a| - p
  {
    DigitsConcat(a, b);
    if p == |a| {
      GroupingCut(a, b);
    } else {
      GroupingSplit(a, b, p + 1);
      GroupingSplitStep(a, b, p);
    }
  }

  lemma {:induction false} GroupingCut(a: string, b: string)
    requires AllDigits(a + b) && |b| > 0 && |b| % 3 == 0
    ensures Grouping(a + b, |a|) == Grouping(a, |a|) + (if |a| > 0 then "," else "") + Grouping(b, 0)
  {
    var d := a + b;
    MarkDigits(d, |a|);
    assert d[|a|] == b[0];
    GroupingTail(a, b, 1);
    assert !GroupMark(b, 0);
    var m := if |a| > 0 then "," else "";
    assert Grouping(d, |a|) == m + [b[0]] + Grouping(b, 1);
    assert Grouping(b, 0) == [b[0]] + Grouping(b, 1);
  }

  lemma {:induction false} GroupingSplitStep(a: string, b: string, p: nat)
    requires AllDigits(a) && AllDigits(a + b) && |b| > 0 && |b| % 3 == 0 && p < |a|
    requires Grouping(a + b, p + 1) == Grouping(a, p + 1) + (if |a| > 0 then "," else "") + Grouping(b, 0)
    ensures Grouping(a + b, p) == Grouping(a, p) + (if |a| > 0 then "," else "") + Grouping(b, 0)
  {
    var d := a + b;
    SameMark(a, b, p);
    assert d[p] == a[p];
    GroupingUnfold(d, p);
    GroupingUnfold(a, p);
    var m := if GroupMark(a, p) then "," else "";
    var c := if |a| > 0 then "," else "";
    Regroup(m, [a[p]], Grouping(a, p + 1), c, Grouping(b, 0));
  }

  lemma GroupingUnfold(s: string, p: nat)
    requires p < |s|
    ensures Grouping(s, p) == (if GroupMark(s, p) then "," else "") + [s[p]] + Grouping(s, p + 1)
  {
  }

  lemma Regroup(m: string, x: string, ga: string, c: string, gb: string)
    ensures m + x + (ga + c + gb) == (m + x + ga) + c + gb
  {
  }

  /** A multiple of three more digits after `a` does not move its commas. */
  lemma SameMark(a: string, b: string, p: nat)
    requires AllDigits(a) && AllDigits(a + b) && |b| % 3 == 0 && p < |a|
    ensures GroupMark(a + b, p) == GroupMark(a, p)
  {
    MarkDigits(a + b, p);
    MarkDigits(a, p);
    ModThree(|a| - p, |b| / 3);
  }

  lemma {:induction false} ModThree(x: nat, k: nat)
    ensures (x + 3 * k) % 3 == x % 3
    decreases k
  {
    if k > 0 {
      ModThree(x, k - 1);
      assert x + 3 * k == (x + 3 * (k - 1)) + 3;
    }
  }

  /** On digits, the regular expression groups by three from the right. */
  lemma {:induction false} GroupingDigits(d: string)
    requires AllDigits(d)
    ensures AddCommas(d) == Grouped(d)
    decreases |d|
  {
    if |d| <= 3 {
      GroupingShort(d, 0);
    } else {
      var a, b := d[..|d| - 3], d[|d| - 3..];
      assert d == a + b;
      DigitsConcat(a, b);
      GroupingSplit(a, b, 0);
      GroupingShort(b, 0);
      GroupingDigits(a);
    }
  }

  /** The integer part of `toFixed`'s text, an optional minus sign and digits, is
      grouped by three from the right; the sign stays in front. */
  lemma {:induction false} AddCommasInteger(sign: string, d: string)
    requires sign == "" || sign == "-"
    requires AllDigits(d)
    ensures AddCommas(sign + d) == sign + Grouped(d)
  {
    GroupingDigits(d);
    if sign == "-" {
      GroupingTail(sign, d, 0);
      assert Grouping(sign + d, 0) == "-" + Grouping(sign + d, 1);
    } else {
      assert sign + d == d;
    }
  }

  function StripCommas(s: string): string
    decreases |s|
  {
    if |s| == 0 then "" else (if s[0] == ',' then "" else [s[0]]) + StripCommas(s[1..])
  }

  lemma {:induction false} StripConcat(a: string, b: string)
    ensures StripCommas(a + b) == StripCommas(a) + StripCommas(b)
    decreases |a|
  {
    if |a| > 0 {
      assert (a + b)[1..] == a[1..] + b;
      StripConcat(a[1..], b);
    } else {
      assert a + b == b;
    }
  }

  /** Grouping only inserts commas: taking them out again gives back the text. */
  lemma {:induction false} GroupingOnlyInserts(s: string, p: nat)
    requires p <= |s| && ',' !in s
    ensures StripCommas(Grouping(s, p)) == s[p..]
    decreases |s| - p
  {
    if p < |s| {
      GroupingOnlyInserts(s, p + 1);
      var m := if GroupMark(s, p) then "," else "";
      StripConcat(m, [s[p]] + Grouping(s, p + 1));
      StripConcat([s[p]], Grouping(s, p + 1));
      assert s[p] != ',' by {
        assert s[p] in s;
      }
      assert s[p..] == [s[p]] + s[p + 1..];
    }
  }

  /** Only the text before the first `.` is grouped; what follows it is kept. */
  lemma {:induction false} FormatFixedParts(w: string, f: string)
    requires '.' !in w && '.' !in f
    ensures FormatFixed(w) == AddCommas(w)
    ensures FormatFixed(w + "." + f) == AddCommas(w) + "." + f
  {
    SplitNoSep(w, '.');
    SplitNoSep(f, '.');
    assert w + "." + f == w + ['.'] + f;
    SplitPrepend(w, f, '.');
    var parts := Split(w + "." + f, '.');
    assert parts == [w, f];
    var grouped := [AddCommas(parts[0])] + parts[1..];
    assert grouped == [AddCommas(w), f] && grouped[1..] == [f];
    assert Join(grouped, '.') == AddCommas(w) + ['.'] + Join([f], '.');
  }

  lemma {:induction false} NoDot(sign: string, digits: string)
    requires sign == "" || sign == "-"
    requires AllDigits(digits)
    ensures '.' !in sign + digits && '.' !in digits
  {
    var w := sign + digits;
    forall i | 0 <= i < |w| ensures w[i] != '.' {
      if i >= |sign| {
        assert w[i] == digits[i - |sign|];
      }
    }
    forall i | 0 <= i < |digits| ensures digits[i] != '.' {
      assert IsDigit(digits[i]);
    }
  }

  /** `formatN` on a truthy number groups the integer part of `toFixed`'s text and
      keeps the fractional part as it is; a falsy number gives `if0`, or 0 when
      `if0` is empty too. */
  lemma {:induction false} FormatNShape(number: Num, sign: string, digits: string, fraction: string, if0: string)
    requires sign == "" || sign == "-"
    requires AllDigits(digits) && AllDigits(fraction)
    ensures Truthy(number) ==> FormatN(number, sign + digits, if0) == Shown(sign + Grouped(digits))
    ensures Truthy(number) ==>
      FormatN(number, sign + digits + "." + fraction, if0) == Shown(sign + Grouped(digits) + "." + fraction)
    ensures !Truthy(number) && if0 != "" ==> FormatN(number, sign + digits + "." + fraction, if0) == Shown(if0)
    ensures !Truthy(number) && if0 == "" ==> FormatN(number, sign + digits + "." + fraction, if0) == Zero
  {
    NoDot(sign, digits);
    NoDot("", fraction);
    assert "" + fraction == fraction;
    AddCommasInteger(sign, digits);
    FormatFixedParts(sign + digits, fraction);
  }

  // ---------------------------------------------------------------------------
  // the tag descriptor of n('tag#id.class|attribute=value', …)

  /** An attribute: its name and its value, which is missing (`undefined`) when the
      segment has no `=`. */
  datatype Attribute = Attribute(name: string, value: Option<string>)

  /** What `n` makes of the descriptor: the element name, the id if one is set, the
      classes added and the attributes set, in order. */
  datatype Tag = Tag(name: string, id: Option<string>, classes: seq<string>, attributes: seq<Attribute>)

  /** `seg.split('=')[0]` and `seg.split('=')[1]`. */
  function AttributeOf(seg: string): Attribute {
    var kv := Split(seg, '=');
    Attribute(kv[0], if |kv| > 1 then Some(kv[1]) else None)
  }

  /** The descriptor parse of `n`, split by split. */
  function ParseTag(tag: string): Tag {
    var hashes := Split(tag, '#');
    var dots := Split(tag, '.');
    var bars := Split(tag, '|');
    var name := Split(Split(hashes[0], '.')[0], '|')[0];
    Tag(OrStr(name, "div"),
        if |hashes| > 1 && hashes[1] != "" then Some(Split(Split(hashes[1], '.')[0], '|')[0]) else None,
        if |dots| > 1 && dots[1] != "" then Split(Split(Join(dots[1..], '.'), '|')[0], '.') else [],
        if |bars| > 1 && bars[1] != "" then
          seq(|bars| - 1, i requires 0 <= i < |bars| - 1 => AttributeOf(bars[i + 1]))
        else [])
  }

  /** The longest prefix of `s` without a character of `stops`. */
  function Until(s: string, stops: set<char>): (r: string)
    ensures r <= s
    decreases |s|
  {
    if |s| == 0 || s[0] in stops then "" else [s[0]] + Until(s[1..], stops)
  }

  /** The text after the first `c` of `s`; empty when there is none. */
  function After(s: string, c: char): string
    decreases |s|
  {
    if |s| == 0 then "" else if s[0] == c then s[1..] else After(s[1..], c)
  }

  /** The first piece of a split runs up to the first separator; there are more
      pieces exactly when the separator occurs, and they are the split of the text
      after it. */
  lemma {:induction false} SplitFirst(s: string, c: char)
    ensures Split(s, c)[0] == Until(s, {c})
    ensures |Split(s, c)| > 1 <==> c in s
    ensures c in s ==> Split(s, c)[1..] == Split(After(s, c), c)
    decreases |s|
  {
    if |s| > 0 && s[0] != c {
      SplitFirst(s[1..], c);
      assert c in s <==> c in s[1..] by {
        assert s == [s[0]] + s[1..];
      }
    }
  }

  lemma {:induction false} UntilUntil(s: string, a: set<char>, b: set<char>)
    ensures Until(Until(s, a), b) == Until(s, a + b)
    decreases |s|
  {
    if |s| > 0 && s[0] !in a {
      UntilUntil(s[1..], a, b);
      assert Until(s, a)[0] == s[0] && Until(s, a)[1..] == Until(s[1..], a);
    }
  }

  /** The element name is the text before the first `#`, `.` or `|`, and `div` when
      that is empty. */
  lemma {:induction false} TagName(tag: string)
    ensures ParseTag(tag).name == OrStr(Until(tag, {'#', '.', '|'}), "div")
  {
    SplitFirst(tag, '#');
    var h := Split(tag, '#')[0];
    SplitFirst(h, '.');
    SplitFirst(Split(h, '.')[0], '|');
    UntilUntil(tag, {'#'}, {'.'});
    UntilUntil(tag, {'#'} + {'.'}, {'|'});
    assert {'#'} + {'.'} + {'|'} == {'#', '.', '|'};
  }

  /** An id is set when some text follows the first `#` before the next `#`; it is
      the text after the first `#` up to the next `#`, `.` or `|`. */
  lemma {:induction false} TagId(tag: string)
    ensures ParseTag(tag).id.Some? <==> '#' in tag && Until(After(tag, '#'), {'#'}) != ""
    ensures ParseTag(tag).id.Some? ==> ParseTag(tag).id.value == Until(After(tag, '#'), {'#', '.', '|'})
  {
    SplitFirst(tag, '#');
    if '#' in tag {
      var rest := After(tag, '#');
      SplitFirst(rest, '#');
      var h := Split(rest, '#')[0];
      assert Split(tag, '#')[1] == h;
      SplitFirst(h, '.');
      SplitFirst(Split(h, '.')[0], '|');
      UntilUntil(rest, {'#'}, {'.'});
      UntilUntil(rest, {'#'} + {'.'}, {'|'});
      assert {'#'} + {'.'} + {'|'} == {'#', '.', '|'};
    }
  }

  /** Classes are added when some text follows the first `.` before the next `.`;
      they are the `.`-separated pieces of the text after the first `.` up to the
      next `|`, wherever in the descriptor that `.` stands. */
  lemma {:induction false} TagClasses(tag: string)
    ensures ParseTag(tag).classes != [] <==> '.' in tag && Until(After(tag, '.'), {'.'}) != ""
    ensures ParseTag(tag).classes != [] ==> ParseTag(tag).classes == Split(Until(After(tag, '.'), {'|'}), '.')
  {
    SplitFirst(tag, '.');
    if '.' in tag {
      var rest := After(tag, '.');
      SplitFirst(rest, '.');
      JoinSplit(rest, '.');
      assert Split(tag, '.')[1] == Split(rest, '.')[0];
      SplitFirst(rest, '|');
    }
  }

  /** An attribute segment read by position: the name up to the first `=`, the
      value between the first and the second `=`. */
  function SegmentAttribute(seg: string): Attribute {
    Attribute(Until(seg, {'='}), if '=' in seg then Some(Until(After(seg, '='), {'='})) else None)
  }

  /** Attributes are set when some text follows the first `|` before the next `|`;
      then each `|`-segment after the first `|` gives one attribute, named by its
      text before the first `=` and valued by the text between its first and second
      `=`, or missing without `=`. */
  lemma {:induction false} TagAttributes(tag: string)
    ensures |ParseTag(tag).attributes| > 0 <==> '|' in tag && Until(After(tag, '|'), {'|'}) != ""
    ensures |ParseTag(tag).attributes| > 0 ==>
      var segs := Split(After(tag, '|'), '|');
      && |ParseTag(tag).attributes| == |segs|
      && (forall i :: 0 <= i < |segs| ==> ParseTag(tag).attributes[i] == SegmentAttribute(segs[i]))
  {
    SplitFirst(tag, '|');
    if '|' in tag {
      var segs := Split(After(tag, '|'), '|');
      SplitFirst(After(tag, '|'), '|');
      var bars := Split(tag, '|');
      assert bars[1..] == segs;
      forall i | 0 <= i < |segs| ensures AttributeOf(segs[i]) == SegmentAttribute(segs[i]) {
        SplitFirst(segs[i], '=');
        if '=' in segs[i] {
          SplitFirst(After(segs[i], '='), '=');
        }
      }
      if |ParseTag(tag).attributes| > 0 {
        forall i | 0 <= i < |segs| ensures ParseTag(tag).attributes[i] == AttributeOf(segs[i]) {
          assert bars[i + 1] == segs[i];
        }
      }
    }
  }
}
