// The tray icon's hover text. Windows shows 63 UTF-16 code units of it, so every
// text is assembled within that budget, by whole lines where possible.
module TrayTip {
  import opened Wrappers

  const MAX_TIP: int := 63
  const BRAND := "HaoVPN"

  // ----- UTF-16 (section 2.1 of RFC 2781) -----

  type Unit = u: nat | u < 0x1_0000

  predicate IsHigh(u: Unit) {
    0xD800 <= u < 0xDC00
  }

  predicate IsLow(u: Unit) {
    0xDC00 <= u < 0xE000
  }

  function Width(c: char): nat {
    if c as int < 0x1_0000 then 1 else 2
  }

  function UnitsOf(c: char): (r: seq<Unit>)
    ensures |r| == Width(c)
    ensures (|r| == 1 && !IsHigh(r[0]) && !IsLow(r[0])) || (|r| == 2 && IsHigh(r[0]) && IsLow(r[1]))
  {
    var v := c as int;
    if v < 0x1_0000 then [v]
    else [0xD800 + (v - 0x1_0000) / 0x400, 0xDC00 + (v - 0x1_0000) % 0x400]
  }

  function Encode(s: string): seq<Unit> {
    if s == [] then [] else UnitsOf(s[0]) + Encode(s[1..])
  }

  const REPLACEMENT: char := '\U{FFFD}'

  // A surrogate without its partner becomes U+FFFD.
  function Decode(u: seq<Unit>): string {
    if u == [] then []
    else if IsHigh(u[0]) && |u| > 1 && IsLow(u[1]) then
      var high: int, low: int := u[0], u[1];
      [((high - 0xD800) * 0x400 + (low - 0xDC00) + 0x1_0000) as char] + Decode(u[2..])
    else if IsHigh(u[0]) || IsLow(u[0]) then [REPLACEMENT] + Decode(u[1..])
    else [u[0] as char] + Decode(u[1..])
  }

  // utf16Len, without writing the units out.
  function Len(s: string): nat {
    if s == [] then 0 else Width(s[0]) + Len(s[1..])
  }

  lemma {:induction false} LenCounts(s: string)
    ensures Len(s) == |Encode(s)|
  {
    if s != [] {
      LenCounts(s[1..]);
    }
  }

  lemma {:induction false} DecodeEncode(s: string)
    ensures Decode(Encode(s)) == s
  {
    if s != [] {
      DecodeEncode(s[1..]);
      var u := Encode(s);
      assert u == UnitsOf(s[0]) + Encode(s[1..]);
      assert u[|UnitsOf(s[0])|..] == Encode(s[1..]);
      OneChar(s[0], u);
    }
  }

  lemma OneChar(c: char, u: seq<Unit>)
    requires UnitsOf(c) <= u
    ensures Decode(u) == [c] + Decode(u[|UnitsOf(c)|..])
  {
    assert u[0] == UnitsOf(c)[0];
    if |UnitsOf(c)| == 2 {
      assert u[1] == UnitsOf(c)[1];
    }
  }

  // ----- cutting -----

  // How many leading characters fit into max units.
  function Fit(s: string, max: int): (k: nat)
    ensures k <= |s|
  {
    if s == [] || Width(s[0]) > max then 0 else 1 + Fit(s[1..], max - Width(s[0]))
  }

  function Cut(s: string, max: int): string {
    s[..Fit(s, max)]
  }

  lemma {:induction false} FitIsLongest(s: string, max: nat)
    ensures Len(s[..Fit(s, max)]) <= max
    ensures forall k :: Fit(s, max) < k <= |s| ==> Len(s[..k]) > max
  {
    if s != [] {
      forall k | 0 < k <= |s|
        ensures Len(s[..k]) == Width(s[0]) + Len(s[1..][..k - 1])
      {
        assert s[..k][0] == s[0] && s[..k][1..] == s[1..][..k - 1];
      }
      if Width(s[0]) <= max {
        FitIsLongest(s[1..], max - Width(s[0]));
      }
    }
  }

  function TruncateUTF16(s: string, max: int): string {
    if max <= 0 then ""
    else
      var u := Encode(s);
      if |u| <= max then s
      else
        var cut := u[..max];
        Decode(if IsHigh(cut[|cut| - 1]) then cut[..|cut| - 1] else cut)
  }

  // The units up to max are the units of the characters that fit, and perhaps
  // the first half of one that does not.
  lemma {:induction false} CutBetween(s: string, max: nat)
    requires max <= |Encode(s)|
    ensures (Encode(s)[..max] == Encode(s[..Fit(s, max)])
             || (max > 0 && IsHigh(Encode(s)[max - 1]) && Encode(s)[..max - 1] == Encode(s[..Fit(s, max)])))
    ensures max > 0 && IsHigh(Encode(s)[max - 1]) ==> Encode(s)[..max - 1] == Encode(s[..Fit(s, max)])
  {
    if s != [] {
      var head, rest := UnitsOf(s[0]), Encode(s[1..]);
      assert Encode(s) == head + rest;
      if |head| <= max {
        CutBetween(s[1..], max - |head|);
        EncodeHead(s, Fit(s[1..], max - |head|));
        CutAfter(head, rest, max);
      } else if max == 1 {
        assert Encode(s)[..0] == Encode(s[..0]);
      }
    }
  }

  lemma EncodeHead(s: string, k: nat)
    requires s != [] && k < |s|
    ensures Encode(s[..k + 1]) == UnitsOf(s[0]) + Encode(s[1..][..k])
  {
    assert s[..k + 1][0] == s[0] && s[..k + 1][1..] == s[1..][..k];
  }

  lemma CutAfter(head: seq<Unit>, rest: seq<Unit>, max: nat)
    requires |head| <= max <= |head| + |rest|
    ensures (head + rest)[..max] == head + rest[..max - |head|]
    ensures max > |head| ==> (head + rest)[..max - 1] == head + rest[..max - 1 - |head|]
    ensures max > |head| ==> (head + rest)[max - 1] == rest[max - 1 - |head|]
  {
  }

  // Truncation gives the longest prefix within the budget: no character is split
  // and none that fits is lost.
  lemma TruncateIsLongestPrefix(s: string, max: int)
    ensures TruncateUTF16(s, max) == Cut(s, max)
  {
    LenCounts(s);
    if max <= 0 {
    } else if Len(s) <= max {
      FitIsLongest(s, max);
      assert s[..|s|] == s;
    } else {
      var u := Encode(s);
      CutBetween(s, max);
      DecodeEncode(s[..Fit(s, max)]);
      assert u[..max][..max - 1] == u[..max - 1];
    }
  }

  lemma TruncateFits(s: string, max: int)
    ensures Len(TruncateUTF16(s, max)) <= if max < 0 then 0 else max
  {
    TruncateIsLongestPrefix(s, max);
    if max >= 0 {
      FitIsLongest(s, max);
    }
  }

  // ----- an ellipsis in the middle -----

  // Where the longest tail of at most max units starts.
  function TailStart(s: string, max: nat): (p: nat)
    ensures p <= |s|
  {
    if Len(s) <= max then 0 else 1 + TailStart(s[1..], max)
  }

  lemma {:induction false} LenConcat(a: string, b: string)
    ensures Len(a + b) == Len(a) + Len(b)
  {
    if a == [] {
      assert a + b == b;
    } else {
      assert (a + b)[1..] == a[1..] + b;
      LenConcat(a[1..], b);
    }
  }

  lemma {:induction false} LenAtLeast(s: string)
    ensures Len(s) >= |s|
  {
    if s != [] {
      LenAtLeast(s[1..]);
    }
  }

  lemma LenOne(c: char)
    ensures Len([c]) == Width(c)
  {
    assert [c][1..] == [];
  }

  lemma {:induction false} TailIsLongest(s: string, max: nat)
    ensures Len(s[TailStart(s, max)..]) <= max
    ensures forall q :: 0 <= q < TailStart(s, max) ==> Len(s[q..]) > max
  {
    if Len(s) > max {
      TailIsLongest(s[1..], max);
      assert s[1..][TailStart(s[1..], max)..] == s[TailStart(s, max)..];
      forall q | 0 <= q < TailStart(s, max)
        ensures Len(s[q..]) > max
      {
        assert q > 0 ==> s[1..][q - 1..] == s[q..];
        assert s[0..] == s;
      }
    } else {
      assert s[0..] == s;
    }
  }

  lemma HeadFits(s: string, max: nat)
    ensures Len(s[..Fit(s, max)]) <= max
  {
    FitIsLongest(s, max);
  }

  const ELLIPSIS := "…"

  lemma EllipsisIsOne()
    ensures Len(ELLIPSIS) == 1
  {
    LenOne('…');
    assert ELLIPSIS == ['…'];
  }

  // Where the tail starts: among the last `right` characters, as early as fits.
  function GapEnd(s: string, right: nat, budget: nat): (t: nat)
    ensures t <= |s|
  {
    var from := if right < |s| then |s| - right else 0;
    from + TailStart(s[from..], budget)
  }

  lemma GapEndFits(s: string, right: nat, budget: nat)
    ensures Len(s[GapEnd(s, right, budget)..]) <= budget
  {
    var from := if right < |s| then |s| - right else 0;
    TailIsLongest(s[from..], budget);
    assert s[from..][TailStart(s[from..], budget)..] == s[GapEnd(s, right, budget)..];
  }

  // A head of at most left units, a gap, and a tail of at most right characters;
  // head and tail share left + right units.
  function WithGap(s: string, left: nat, right: nat): string {
    HeadFits(s, left);
    s[..Fit(s, left)] + ELLIPSIS + s[GapEnd(s, right, left + right - Len(s[..Fit(s, left)]))..]
  }

  function Ellipsize(s: string, max: int): string {
    if max <= 0 then ""
    else if Len(s) <= max then s
    else if max < 3 then Cut(s, max)
    else WithGap(s, (max - 1) / 2, max - 1 - (max - 1) / 2)
  }

  lemma GapCase(s: string, max: int)
    requires Len(s) > max >= 3
    ensures Ellipsize(s, max) == WithGap(s, (max - 1) / 2, max - 1 - (max - 1) / 2)
  {
  }

  // Head and tail share all of the budget but one unit.
  lemma Halves(s: string, max: int) returns (left: nat, right: nat)
    requires Len(s) > max >= 3
    ensures left == (max - 1) / 2 && left + right + 1 == max && Ellipsize(s, max) == WithGap(s, left, right)
  {
    left := (max - 1) / 2;
    right := max - 1 - left;
    GapCase(s, max);
  }

  // The two loops that shorten head and tail to what fits.
  method ShortenHead(s: string, left: nat) returns (head: string)
    ensures head == s[..Fit(s, left)]
  {
    FitIsLongest(s, left);
    LenAtLeast(s[..Fit(s, left)]);
    var n := if left > |s| then |s| else left;
    head := s[..n];
    while Len(head) > left && |head| > 0
      invariant Fit(s, left) <= |head| <= |s| && head == s[..|head|]
      decreases |head|
    {
      head := head[..|head| - 1];
    }
  }

  method ShortenTail(last: string, budget: nat) returns (tail: string)
    ensures tail == last[TailStart(last, budget)..]
  {
    tail := last;
    while Len(tail) > budget && |tail| > 0
      invariant tail[TailStart(tail, budget)..] == last[TailStart(last, budget)..]
      decreases |tail|
    {
      assert tail[1..][TailStart(tail[1..], budget)..] == tail[TailStart(tail, budget)..];
      tail := tail[1..];
    }
    assert tail[0..] == tail;
  }

  method EllipsizeUTF16(s: string, max: int) returns (out: string)
    ensures out == Ellipsize(s, max)
  {
    EllipsisIsOne();
    TruncateIsLongestPrefix(s, max);
    if max <= 0 {
      return "";
    }
    if Len(s) <= max {
      return s;
    }
    if max <= 1 {
      return TruncateUTF16(s, max);
    }
    var inner := max - Len(ELLIPSIS);
    if inner < 2 {
      return TruncateUTF16(s, max);
    }
    ghost var half, rest := Halves(s, max);
    var left := inner / 2;
    out := HeadAndTail(s, left, inner - left);
  }

  method HeadAndTail(s: string, left: nat, right: nat) returns (out: string)
    ensures out == WithGap(s, left, right)
  {
    var head := ShortenHead(s, left);
    HeadFits(s, left);
    var from := if right < |s| then |s| - right else 0;
    var tail := ShortenTail(s[from..], left + right - Len(head));
    assert tail == s[GapEnd(s, right, left + right - Len(head))..];
    return head + ELLIPSIS + tail;
  }

  // out is s with one gap: a prefix and a suffix that do not meet.
  ghost predicate OneGap(s: string, out: string) {
    exists h, t :: 0 <= h < t <= |s| && out == s[..h] + ELLIPSIS + s[t..]
  }

  // The budget holds, whatever it is.
  lemma EllipsizeFits(s: string, max: int)
    ensures Len(Ellipsize(s, max)) <= if max < 0 then 0 else max
  {
    if Len(s) > max && 0 < max < 3 {
      HeadFits(s, max);
    } else if Len(s) > max >= 3 {
      EllipsizeLeavesOneGap(s, max);
    }
  }

  // And what is left out of a text that is too long is one gap.
  lemma EllipsizeLeavesOneGap(s: string, max: int)
    requires Len(s) > max >= 3
    ensures OneGap(s, Ellipsize(s, max)) && Len(Ellipsize(s, max)) <= max
  {
    var left, right := Halves(s, max);
    GapFits(s, left, right);
  }

  lemma GapFits(s: string, left: nat, right: nat)
    requires Len(s) > left + right + 1
    ensures Len(WithGap(s, left, right)) <= left + right + 1 && OneGap(s, WithGap(s, left, right))
  {
    var h := Fit(s, left);
    HeadFits(s, left);
    var t := GapEnd(s, right, left + right - Len(s[..h]));
    GapEndFits(s, right, left + right - Len(s[..h]));
    PartsLen(s[..h], s[t..]);
    PartsDoNotMeet(s, h, t);
  }

  lemma PartsLen(head: string, tail: string)
    ensures Len(head + ELLIPSIS + tail) == Len(head) + 1 + Len(tail)
  {
    EllipsisIsOne();
    LenConcat(head + ELLIPSIS, tail);
    LenConcat(head, ELLIPSIS);
  }

  lemma PartsDoNotMeet(s: string, h: nat, t: nat)
    requires h <= |s| && t <= |s| && Len(s[..h]) + Len(s[t..]) < Len(s)
    ensures h < t
  {
    if t <= h {
      assert s == s[..h] + s[h..];
      LenConcat(s[..h], s[h..]);
      assert s[t..] == s[t..h] + s[h..];
      LenConcat(s[t..h], s[h..]);
    }
  }

  // Exactly which gap: the head is the longest of at most left units; the tail, of
  // at most `right` characters, is the longest that fits into what is left of both.
  ghost predicate TightGap(s: string, left: nat, right: nat, h: int, t: int) {
    && 0 <= h < t <= |s|
    && Len(s[..h]) <= left < Len(s[..h + 1])
    && |s| - t <= right && Len(s[..h]) + Len(s[t..]) <= left + right
    && (|s| - t == right || t == 0 || Len(s[..h]) + Len(s[t - 1..]) > left + right)
  }

  lemma EllipsizeExactly(s: string, max: int)
    requires Len(s) > max >= 3
    ensures exists h, t :: TightGap(s, (max - 1) / 2, max - 1 - (max - 1) / 2, h, t)
                           && Ellipsize(s, max) == s[..h] + "…" + s[t..]
  {
    var left, right := Halves(s, max);
    var h, t := GapIsTight(s, left, right);
  }

  lemma GapIsTight(s: string, left: nat, right: nat) returns (h: nat, t: nat)
    requires Len(s) > left + right + 1
    ensures TightGap(s, left, right, h, t) && WithGap(s, left, right) == s[..h] + "…" + s[t..]
  {
    h := Fit(s, left);
    FitIsLongest(s, left);
    var budget: nat := left + right - Len(s[..h]);
    t := GapEnd(s, right, budget);
    GapEndFits(s, right, budget);
    GapEndTight(s, right, budget);
    PartsDoNotMeet(s, h, t);
  }

  lemma TailOneLonger(s: string, max: nat)
    requires TailStart(s, max) > 0
    ensures Len(s[TailStart(s, max) - 1..]) > max
  {
    TailIsLongest(s, max);
  }

  lemma GapEndTight(s: string, right: nat, budget: nat)
    ensures var t := GapEnd(s, right, budget);
      |s| - t <= right && (|s| - t == right || t == 0 || Len(s[t - 1..]) > budget)
  {
    var from := if right < |s| then |s| - right else 0;
    var p := TailStart(s[from..], budget);
    if p > 0 {
      TailOneLonger(s[from..], budget);
      assert s[from..][p - 1..] == s[from + p - 1..];
    }
  }

  // ----- lines -----

  // unicode.IsSpace
  predicate IsSpace(c: char) {
    var v := c as int;
    9 <= v <= 13 || v == 0x20 || v == 0x85 || v == 0xA0 || v == 0x1680 || 0x2000 <= v <= 0x200A
    || v == 0x2028 || v == 0x2029 || v == 0x202F || v == 0x205F || v == 0x3000
  }

  function TrimSpace(s: string): string {
    if s == [] then s
    else if IsSpace(s[0]) then TrimSpace(s[1..])
    else if IsSpace(s[|s| - 1]) then TrimSpace(s[..|s| - 1])
    else s
  }

  // What is trimmed are spaces at both ends, and all of them.
  lemma {:induction false} TrimExactly(s: string) returns (i: nat, j: nat)
    ensures i <= j <= |s| && TrimSpace(s) == s[i..j]
    ensures forall k :: 0 <= k < i || j <= k < |s| ==> IsSpace(s[k])
    ensures i < j ==> !IsSpace(s[i]) && !IsSpace(s[j - 1])
  {
    if s == [] {
      i, j := 0, 0;
    } else if IsSpace(s[0]) {
      i, j := TrimExactly(s[1..]);
      assert s[1..][i..j] == s[i + 1..j + 1];
      assert forall k :: 0 < k < |s| ==> s[k] == s[1..][k - 1];
      i, j := i + 1, j + 1;
    } else if IsSpace(s[|s| - 1]) {
      i, j := TrimExactly(s[..|s| - 1]);
      assert s[..|s| - 1][i..j] == s[i..j];
    } else {
      i, j := 0, |s|;
      assert s[0..|s|] == s;
    }
  }

  function NonBlank(lines: seq<string>): seq<string> {
    if lines == [] then []
    else
      var line := TrimSpace(lines[|lines| - 1]);
      NonBlank(lines[..|lines| - 1]) + if line == "" then [] else [line]
  }

  function Join(parts: seq<string>): string {
    if parts == [] then ""
    else if |parts| == 1 then parts[0]
    else Join(parts[..|parts| - 1]) + "\n" + parts[|parts| - 1]
  }

  // How many lines fit, taken in order until one does not.
  function Kept(lines: seq<string>): (k: nat)
    ensures k <= |lines|
  {
    if lines == [] then 0
    else
      var k := Kept(lines[..|lines| - 1]);
      if k == |lines| - 1 && Len(Join(lines)) <= MAX_TIP then |lines| else k
  }

  function Fitted(lines: seq<string>): string {
    var ls := NonBlank(lines);
    if ls == [] then BRAND
    else if Kept(ls) == 0 then Cut(ls[0], MAX_TIP)
    else Join(ls[..Kept(ls)])
  }

  method FitTipLines(lines: seq<string>) returns (out: string)
    ensures out == Fitted(lines)
  {
    var parts: seq<string> := [];
    for i := 0 to |lines|
      invariant parts == NonBlank(lines[..i]) && Kept(parts) == |parts|
    {
      var line := TrimSpace(lines[i]);
      assert lines[..i + 1][..i] == lines[..i];
      if line != "" {
        var cand := line;
        if |parts| > 0 {
          cand := Join(parts) + "\n" + line;
        }
        assert (parts + [line])[..|parts|] == parts;
        assert cand == Join(parts + [line]);
        NonBlankGrows(lines, i + 1);
        if Len(cand) > MAX_TIP {
          KeptStops(NonBlank(lines), parts, line);
          if |parts| == 0 {
            TruncateIsLongestPrefix(line, MAX_TIP);
            return TruncateUTF16(line, MAX_TIP);
          }
          return Join(parts);
        }
        parts := parts + [line];
      }
    }
    assert lines[..|lines|] == lines;
    assert parts[..|parts|] == parts;
    if |parts| == 0 {
      return BRAND;
    }
    return Join(parts);
  }

  lemma {:induction false} NonBlankGrows(lines: seq<string>, i: nat)
    requires i <= |lines|
    ensures NonBlank(lines[..i]) <= NonBlank(lines)
  {
    if i == |lines| {
      assert lines[..i] == lines;
    } else {
      assert lines[..|lines| - 1][..i] == lines[..i];
      NonBlankGrows(lines[..|lines| - 1], i);
    }
  }

  // The lines that count are those that are not blank, trimmed.
  lemma {:induction false} NonBlankExactly(lines: seq<string>, line: string)
    ensures line in NonBlank(lines) <==> line != "" && exists i :: 0 <= i < |lines| && TrimSpace(lines[i]) == line
  {
    if lines != [] {
      var front := lines[..|lines| - 1];
      NonBlankExactly(front, line);
      assert forall i :: 0 <= i < |front| ==> front[i] == lines[i];
    }
  }

  lemma {:induction false} KeptStops(ls: seq<string>, parts: seq<string>, line: string)
    requires parts + [line] <= ls && Kept(parts) == |parts| && Len(Join(parts + [line])) > MAX_TIP
    ensures Kept(ls) == |parts| && ls[..|parts|] == parts && ls[|parts|] == line
  {
    if |ls| == |parts| + 1 {
      assert ls == parts + [line];
      assert ls[..|parts|] == parts;
    } else {
      KeptStops(ls[..|ls| - 1], parts, line);
    }
  }

  lemma {:induction false} KeptIsMost(ls: seq<string>)
    ensures Len(Join(ls[..Kept(ls)])) <= MAX_TIP
    ensures forall k :: Kept(ls) < k <= |ls| ==> Len(Join(ls[..k])) > MAX_TIP
  {
    if ls != [] {
      var front := ls[..|ls| - 1];
      KeptIsMost(front);
      assert ls[..|ls|] == ls;
      forall k | Kept(ls) < k <= |ls|
        ensures Len(Join(ls[..k])) > MAX_TIP
      {
        if k < |ls| {
          assert front[..k] == ls[..k];
        } else if Kept(front) < |front| {
          assert front[..|front|] == front;
          LongerJoin(ls);
        }
      }
      assert Kept(ls) < |ls| ==> front[..Kept(ls)] == ls[..Kept(ls)];
    }
  }

  lemma LongerJoin(ls: seq<string>)
    requires |ls| > 1
    ensures Len(Join(ls)) > Len(Join(ls[..|ls| - 1]))
  {
    LenConcat(Join(ls[..|ls| - 1]) + "\n", ls[|ls| - 1]);
    LenConcat(Join(ls[..|ls| - 1]), "\n");
    LenOne('\n');
  }

  lemma BrandFits()
    ensures Len(BRAND) == 6
  {
    LenAscii(BRAND);
  }

  lemma {:induction false} LenAscii(s: string)
    requires forall i :: 0 <= i < |s| ==> s[i] as int < 0x80
    ensures Len(s) == |s|
  {
    if s != [] {
      LenAscii(s[1..]);
    }
  }

  // Whole lines, as many as fit in order; only a first line that is too long by
  // itself is cut.
  lemma FittedExactly(lines: seq<string>)
    ensures Len(Fitted(lines)) <= 63
    ensures var ls := NonBlank(lines);
            ls != [] && Len(ls[0]) <= 63 ==>
              exists k :: 0 < k <= |ls| && Fitted(lines) == Join(ls[..k])
                          && forall m :: k < m <= |ls| ==> Len(Join(ls[..m])) > 63
    ensures NonBlank(lines) == [] ==> Fitted(lines) == "HaoVPN"
    ensures NonBlank(lines) != [] && Len(NonBlank(lines)[0]) > 63 ==> Fitted(lines) == Cut(NonBlank(lines)[0], 63)
  {
    var ls := NonBlank(lines);
    BrandFits();
    KeptIsMost(ls);
    if ls != [] {
      HeadFits(ls[0], MAX_TIP);
      assert Join(ls[..1]) == ls[0];
      if Len(ls[0]) > MAX_TIP && Kept(ls) > 0 {
        FirstOfJoin(ls[..Kept(ls)]);
      }
    }
  }

  lemma {:induction false} FirstOfJoin(ls: seq<string>)
    requires ls != []
    ensures Len(Join(ls)) >= Len(ls[0])
  {
    if |ls| > 1 {
      LongerJoin(ls);
      FirstOfJoin(ls[..|ls| - 1]);
    }
  }

  // Two lines that fit are shown as they are.
  lemma TwoLines(a: string, b: string)
    requires TrimSpace(a) == a != "" && TrimSpace(b) == b != "" && Len(a) + 1 + Len(b) <= 63
    ensures Fitted([a, b]) == a + "\n" + b
  {
    TwoNonBlank(a, b);
    TwoJoined(a, b);
    KeptIsMost([a, b]);
    assert [a, b][..2] == [a, b];
    assert Kept([a, b]) == 2;
  }

  lemma TwoNonBlank(a: string, b: string)
    requires TrimSpace(a) == a != "" && TrimSpace(b) == b != ""
    ensures NonBlank([a, b]) == [a, b]
  {
    assert [a, b][..1] == [a] && [a][..0] == [];
    assert NonBlank([a]) == [] + [a];
    assert NonBlank([a, b]) == NonBlank([a]) + [b];
  }

  lemma TwoJoined(a: string, b: string)
    ensures Join([a, b]) == a + "\n" + b
    ensures Len(Join([a, b])) == Len(a) + 1 + Len(b)
  {
    assert [a, b][..1] == [a];
    assert Join([a]) == a;
    LenConcat(a + "\n", b);
    LenConcat(a, "\n");
    LenOne('\n');
  }

  lemma {:induction false} LenNarrow(s: string)
    requires forall i :: 0 <= i < |s| ==> s[i] as int < 0x1_0000
    ensures Len(s) == |s|
  {
    if s != [] {
      LenNarrow(s[1..]);
    }
  }

  // A short line of our own, under the brand.
  lemma UnderBrand(b: string)
    requires 0 < |b| <= 56 && forall i :: 0 <= i < |b| ==> b[i] as int < 0x1_0000
    requires !IsSpace(b[0]) && !IsSpace(b[|b| - 1])
    ensures Fitted(["HaoVPN", b]) == "HaoVPN\n" + b
  {
    LenNarrow("HaoVPN");
    LenNarrow(b);
    TwoLines("HaoVPN", b);
    assert "HaoVPN" + "\n" == "HaoVPN\n";
  }

  // ----- the texts -----

  datatype State = Idle | Connecting | Connected | Reconnecting | Other

  // since is the connection time as printed, None for the zero time.
  datatype Input = Input(
    state: State, disconnecting: bool, server: string, vpnIP: string, since: Option<string>, lastError: string)

  const HOST_PREFIX := "已连接至: "

  function WithHost(text: string, server: string): string {
    var budget := MAX_TIP - Len(text) - 1 - Len(HOST_PREFIX);
    if budget < 4 then text
    else
      var out := text + "\n" + HOST_PREFIX + Ellipsize(server, budget);
      if Len(out) > MAX_TIP then text else out
  }

  function Base(vpnIP: string): string {
    var ip := TrimSpace(vpnIP);
    BRAND + "\n" + ("分配 IP: " + (if ip == "" then "—" else ip))
  }

  function WithSince(base: string, since: string): string {
    base + "\n" + ("连接自: " + since)
  }

  function FormatConnectedTip(input: Input): string {
    var base := Base(input.vpnIP);
    var server := TrimSpace(input.server);
    if Len(base) > MAX_TIP then TruncateUTF16(base, MAX_TIP)
    else if input.since.Some? then
      var withSince := WithSince(base, input.since.value);
      if Len(withSince) > MAX_TIP then base
      else if server == "" then withSince
      else WithHost(withSince, server)
    else if server == "" then base
    else WithHost(base, server)
  }

  method FormatTrayTooltip(input: Input) returns (tip: string)
    ensures tip == Tooltip(input)
  {
    if input.disconnecting {
      tip := FitTipLines([BRAND, "正在断开…"]);
      return;
    }
    match input.state {
      case Connected =>
        tip := FormatConnectedTip(input);
      case Connecting =>
        var ip := TrimSpace(input.vpnIP);
        if ip != "" {
          tip := FitTipLines([BRAND, "正在配置网络…", "分配 IP: " + ip]);
        } else {
          tip := FitTipLines([BRAND, "正在连接…"]);
        }
      case Reconnecting =>
        tip := FitTipLines([BRAND, "重连中…"]);
      case _ =>
        var errMsg := TrimSpace(input.lastError);
        if errMsg != "" && input.state.Idle? {
          tip := FitTipLines([BRAND, "错误: " + TruncateUTF16(errMsg, 40)]);
        } else {
          tip := FitTipLines([BRAND, "未连接"]);
        }
    }
  }

  function Lines(input: Input): seq<string> {
    if input.disconnecting then [BRAND, "正在断开…"]
    else match input.state
      case Connecting =>
        if TrimSpace(input.vpnIP) != "" then [BRAND, "正在配置网络…", "分配 IP: " + TrimSpace(input.vpnIP)]
            else [BRAND, "正在连接…"]
      case Reconnecting => [BRAND, "重连中…"]
      case _ =>
        if TrimSpace(input.lastError) != "" && input.state.Idle?
        then [BRAND, "错误: " + TruncateUTF16(TrimSpace(input.lastError), 40)]
        else [BRAND, "未连接"]
  }

  function Tooltip(input: Input): string {
    if !input.disconnecting && input.state.Connected? then FormatConnectedTip(input) else Fitted(Lines(input))
  }

  // The host line is there exactly when at least four units are left for it, and
  // the text with it always fits: the last check in WithHost never strikes.
  lemma HostShownExactly(text: string, server: string)
    ensures var budget := MAX_TIP - Len(text) - 1 - Len(HOST_PREFIX);
            WithHost(text, server) == if budget < 4 then text else text + "\n" + HOST_PREFIX + Ellipsize(server, budget)
    ensures Len(text) <= MAX_TIP ==> Len(WithHost(text, server)) <= MAX_TIP
  {
    var budget := MAX_TIP - Len(text) - 1 - Len(HOST_PREFIX);
    if budget >= 4 {
      EllipsizeFits(server, budget);
      HostLineLen(text, Ellipsize(server, budget));
    }
  }

  lemma HostLineLen(text: string, host: string)
    ensures Len(text + "\n" + HOST_PREFIX + host) == Len(text) + 1 + Len(HOST_PREFIX) + Len(host)
  {
    LenConcat(text + "\n" + HOST_PREFIX, host);
    LenConcat(text + "\n", HOST_PREFIX);
    LenConcat(text, "\n");
    LenOne('\n');
  }

  // Whatever the addresses, hosts, dates and error messages say, the tip fits.
  lemma TooltipFits(input: Input)
    ensures Len(Tooltip(input)) <= 63
  {
    FittedExactly(Lines(input));
    var base := Base(input.vpnIP);
    TruncateFits(base, MAX_TIP);
    HostShownExactly(base, TrimSpace(input.server));
    if input.since.Some? {
      HostShownExactly(WithSince(base, input.since.value), TrimSpace(input.server));
    }
  }

  // The connection time is shown whole or not at all, unless the address line
  // alone is already too long.
  lemma SinceIsNeverCut(input: Input, since: string)
    requires input.since == Some(since) && Len(Base(input.vpnIP)) <= MAX_TIP
    ensures (if Len(WithSince(Base(input.vpnIP), since)) <= MAX_TIP
             then WithSince(Base(input.vpnIP), since) <= FormatConnectedTip(input)
             else FormatConnectedTip(input) == Base(input.vpnIP))
  {
    TextFirst(WithSince(Base(input.vpnIP), since), TrimSpace(input.server));
  }

  lemma TextFirst(text: string, server: string)
    ensures text <= WithHost(text, server)
  {
  }

  // The fixed texts.
  lemma FixedTexts(input: Input)
    ensures input.disconnecting ==> Tooltip(input) == "HaoVPN\n" + "正在断开…"
    ensures !input.disconnecting && input.state.Reconnecting? ==> Tooltip(input) == "HaoVPN\n" + "重连中…"
    ensures !input.disconnecting && input.state.Connecting? && TrimSpace(input.vpnIP) == "" ==>
              Tooltip(input) == "HaoVPN\n" + "正在连接…"
    ensures !input.disconnecting && input.state.Idle? && TrimSpace(input.lastError) == "" ==>
              Tooltip(input) == "HaoVPN\n" + "未连接"
    ensures !input.disconnecting && input.state.Connecting? && TrimSpace(input.vpnIP) != "" ==>
              Tooltip(input) == Fitted(["HaoVPN", "正在配置网络…", "分配 IP: " + TrimSpace(input.vpnIP)])
    ensures !input.disconnecting && input.state.Idle? && TrimSpace(input.lastError) != "" ==>
              Tooltip(input) == Fitted(["HaoVPN", "错误: " + Cut(TrimSpace(input.lastError), 40)])
  {
    TruncateIsLongestPrefix(TrimSpace(input.lastError), 40);
    if input.disconnecting {
      UnderBrand("正在断开…");
    } else if input.state.Reconnecting? {
      UnderBrand("重连中…");
    } else if input.state.Connecting? {
      UnderBrand("正在连接…");
    } else if input.state.Idle? {
      UnderBrand("未连接");
    }
  }

  // The text of a connection: brand and address, the time if it fits, and the host
  // if four units are left for it; only an address line too long by itself is cut.
  lemma ConnectedExactly(input: Input)
    requires !input.disconnecting && input.state.Connected?
    ensures var ip := TrimSpace(input.vpnIP);
      var base := "HaoVPN" + "\n" + ("分配 IP: " + (if ip == "" then "—" else ip));
      var text := if input.since.Some? then base + "\n" + ("连接自: " + input.since.value) else base;
      Tooltip(input) == if Len(base) > 63 then Cut(base, 63)
                        else if Len(text) > 63 then base
                        else WithHostLine(text, TrimSpace(input.server))
  {
    var base := Base(input.vpnIP);
    var text := if input.since.Some? then WithSince(base, input.since.value) else base;
    TruncateIsLongestPrefix(base, 63);
    HostLineExactly(text, TrimSpace(input.server));
  }

  function WithHostLine(text: string, server: string): string {
    if server == "" || 63 - Len(text) - 7 < 4 then text
    else text + "\n" + "已连接至: " + Ellipsize(server, 63 - Len(text) - 7)
  }

  lemma HostLineExactly(text: string, server: string)
    ensures (if server == "" then text else WithHost(text, server)) == WithHostLine(text, server)
  {
    LenNarrow(HOST_PREFIX);
    HostShownExactly(text, server);
  }
}
