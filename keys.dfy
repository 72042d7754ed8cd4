/** `extract_keys` of main.rs: the symbols file holds a dictionary printed as
    `{'AAPL': 'Apple', 'MSFT': 'Microsoft'}`; the keys are pulled out by
    splitting on `, '`, keeping what comes before the first `': '` of each
    piece, and trimming `'` and `{` from both ends. */
module Keys {
  import opened Wrappers

  const ITEM_SEPARATOR: string := ", '"
  const KEY_SEPARATOR: string := "': '"

  predicate OccursAt(s: string, pat: string, i: nat)
  {
    i + |pat| <= |s| && s[i..i + |pat|] == pat
  }

  predicate Contains(s: string, pat: string)
  {
    exists i: nat | i <= |s| :: OccursAt(s, pat, i)
  }

  /** No proper suffix of `pat` is also a prefix of it: two occurrences of
      such a pattern never overlap. */
  predicate NoSelfOverlap(pat: string)
  {
    forall d :: 0 < d < |pat| ==> pat[d..] != pat[..|pat| - d]
  }

  /** The number of positions where `pat` occurs, overlapping ones included. */
  function Occurrences(s: string, pat: string): nat
    requires pat != []
    decreases |s|
  {
    if |s| < |pat| then 0
    else (if s[..|pat|] == pat then 1 else 0) + Occurrences(s[1..], pat)
  }

  lemma {:induction false} OccursAtTail(s: string, pat: string, i: nat)
    requires |s| > 0
    ensures OccursAt(s, pat, i + 1) <==> OccursAt(s[1..], pat, i)
  {
    if i + 1 + |pat| <= |s| {
      assert s[i + 1..i + 1 + |pat|] == s[1..][i..i + |pat|];
    }
  }

  /** The leftmost occurrence, the one `str::split` matches first. */
  function Find(s: string, pat: string): (r: Option<nat>)
    requires pat != []
    ensures r.Some? ==> OccursAt(s, pat, r.value)
    ensures r.Some? ==> forall j: nat :: j < r.value ==> !OccursAt(s, pat, j)
    ensures r.None? ==> !Contains(s, pat)
    decreases |s|
  {
    if |s| < |pat| then None
    else if s[..|pat|] == pat then Some(0)
    else
      match Find(s[1..], pat)
      case None =>
        assert !OccursAt(s, pat, 0) by {
          assert s[0..|pat|] == s[..|pat|];
        }
        assert forall j: nat | 0 < j :: !OccursAt(s, pat, j) by {
          forall j: nat | 0 < j ensures !OccursAt(s, pat, j) { OccursAtTail(s, pat, j - 1); }
        }
        None
      case Some(i) =>
        OccursAtTail(s, pat, i);
        assert forall j: nat :: 0 < j <= i ==> !OccursAt(s, pat, j) by {
          forall j: nat | 0 < j <= i ensures !OccursAt(s, pat, j) { OccursAtTail(s, pat, j - 1); }
        }
        Some(i + 1)
  }

  /** The pieces joined back together with the separator between them. */
  function Join(pieces: seq<string>, sep: string): string
  {
    if pieces == [] then []
    else if |pieces| == 1 then pieces[0]
    else pieces[0] + sep + Join(pieces[1..], sep)
  }

  /** A prefix that ends before the leftmost occurrence does not contain it. */
  lemma {:induction false} PrefixBeforeFirst(s: string, pat: string, i: nat)
    requires pat != [] && i <= |s|
    requires forall j: nat :: j < i ==> !OccursAt(s, pat, j)
    ensures !Contains(s[..i], pat)
  {
    forall j: nat | j <= i ensures !OccursAt(s[..i], pat, j) {
      if j + |pat| <= i {
        assert !OccursAt(s, pat, j);
        assert s[..i][j..j + |pat|] == s[j..j + |pat|];
      }
    }
  }

  /** `str::split` with a string pattern: the text between the leftmost,
      non-overlapping matches. Rejoining the pieces gives the text back, and
      no piece contains the separator. */
  function Split(s: string, sep: string): (pieces: seq<string>)
    requires sep != []
    ensures |pieces| >= 1
    ensures Join(pieces, sep) == s
    ensures forall k :: 0 <= k < |pieces| ==> !Contains(pieces[k], sep)
    decreases |s|
  {
    match Find(s, sep)
    case None => [s]
    case Some(i) =>
      PrefixBeforeFirst(s, sep, i);
      var rest := Split(s[i + |sep|..], sep);
      assert s == s[..i] + sep + s[i + |sep|..];
      [s[..i]] + rest
  }

  /** `s.split(pat).next()`: the text before the first occurrence, or all of
      it when there is none. */
  function FirstPiece(s: string, pat: string): (r: string)
    requires pat != []
    ensures r <= s
    ensures !Contains(r, pat)
    ensures r == s || OccursAt(s, pat, |r|)
    ensures forall j: nat :: j < |r| ==> !OccursAt(s, pat, j)
  {
    Split(s, pat)[0]
  }

  predicate IsTrimmed(c: char)
  {
    c == '\'' || c == '{'
  }

  /** How many characters `trim_start_matches` removes. */
  function LeadingTrimmed(s: string): (n: nat)
    ensures n <= |s|
    ensures forall i :: 0 <= i < n ==> IsTrimmed(s[i])
    ensures n == |s| || !IsTrimmed(s[n])
    decreases |s|
  {
    if s == [] || !IsTrimmed(s[0]) then 0 else 1 + LeadingTrimmed(s[1..])
  }

  /** How many characters `trim_end_matches` removes. */
  function TrailingTrimmed(s: string): (n: nat)
    ensures n <= |s|
    ensures forall i :: |s| - n <= i < |s| ==> IsTrimmed(s[i])
    ensures n == |s| || !IsTrimmed(s[|s| - n - 1])
    decreases |s|
  {
    if s == [] || !IsTrimmed(s[|s| - 1]) then 0 else 1 + TrailingTrimmed(s[..|s| - 1])
  }

  /** Where the text `trim_matches` keeps begins in `s`. */
  function TrimStart(s: string): nat
  {
    LeadingTrimmed(s)
  }

  /** `s.trim_matches(|c| c == '\'' || c == '{')`. */
  function TrimMatches(s: string): (r: string)
    ensures TrimStart(s) + |r| <= |s| && r == s[TrimStart(s)..TrimStart(s) + |r|]
    ensures forall i :: 0 <= i < TrimStart(s) ==> IsTrimmed(s[i])
    ensures forall i :: TrimStart(s) + |r| <= i < |s| ==> IsTrimmed(s[i])
    ensures r == [] || (!IsTrimmed(r[0]) && !IsTrimmed(r[|r| - 1]))
  {
    var rest := s[LeadingTrimmed(s)..];
    var r := rest[..|rest| - TrailingTrimmed(rest)];
    assert r != [] ==> r[0] == rest[0] && r[|r| - 1] == rest[|rest| - TrailingTrimmed(rest) - 1];
    r
  }

  /** Where the key of an item begins in the item. */
  function KeyStart(item: string): nat
  {
    TrimStart(FirstPiece(item, KEY_SEPARATOR))
  }

  /** The key of one `'key': 'value'` item: a stretch of the item that does
      not begin or end with `'` or `{` and does not contain `': '`. */
  function KeyOf(item: string): (key: string)
    ensures KeyStart(item) + |key| <= |item|
    ensures key == item[KeyStart(item)..KeyStart(item) + |key|]
  {
    var first := FirstPiece(item, KEY_SEPARATOR);
    var key := TrimMatches(first);
    assert key == item[KeyStart(item)..KeyStart(item) + |key|] by {
      assert first == item[..|first|];
    }
    key
  }

  /** A stretch of a text that does not contain `pat` does not contain it either. */
  lemma {:induction false} SliceAvoids(s: string, pat: string, a: nat, b: nat)
    requires a <= b <= |s|
    requires !Contains(s, pat)
    ensures !Contains(s[a..b], pat)
  {
    forall j: nat | j <= b - a ensures !OccursAt(s[a..b], pat, j) {
      if j + |pat| <= b - a {
        assert a + j <= |s|;
        assert !OccursAt(s, pat, a + j);
        SliceOfSlice(s, a, s[a..b], j, |pat|);
      }
    }
  }

  /** `extract_keys`: one key per `, '`-separated item, in order. */
  function ExtractKeys(contents: string): (keys: seq<string>)
    ensures |keys| == |Split(contents, ITEM_SEPARATOR)| >= 1
  {
    var items := Split(contents, ITEM_SEPARATOR);
    seq(|items|, k requires 0 <= k < |items| => KeyOf(items[k]))
  }

  lemma {:induction false} OccursAtShift(s: string, pat: string, m: nat, j: nat)
    requires m <= |s|
    ensures OccursAt(s[m..], pat, j) <==> OccursAt(s, pat, m + j)
  {
    if m + j + |pat| <= |s| {
      assert s[m..][j..j + |pat|] == s[m + j..m + j + |pat|];
    }
  }

  /** Occurrences of a pattern that cannot overlap itself are at least its
      length apart. */
  lemma {:induction false} OccurrencesApart(s: string, pat: string, i: nat, d: nat)
    requires NoSelfOverlap(pat)
    requires 0 < d < |pat|
    requires OccursAt(s, pat, i)
    ensures !OccursAt(s, pat, i + d)
  {
    assert s[i + d..i + |pat|] == pat[d..];
    if i + d + |pat| <= |s| {
      assert s[i + d..i + |pat|] == s[i + d..i + d + |pat|][..|pat| - d];
    }
  }

  lemma {:induction false} NoOccurrences(s: string, pat: string)
    requires pat != []
    requires !Contains(s, pat)
    ensures Occurrences(s, pat) == 0
    decreases |s|
  {
    if |pat| <= |s| {
      assert !OccursAt(s, pat, 0);
      assert s[0..|pat|] == s[..|pat|];
      forall j: nat | j <= |s[1..]| ensures !OccursAt(s[1..], pat, j) {
        OccursAtShift(s, pat, 1, j);
      }
      NoOccurrences(s[1..], pat);
    }
  }

  /** Positions before `k` where nothing occurs do not change the count. */
  lemma {:induction false} OccurrencesSkip(s: string, pat: string, k: nat)
    requires pat != [] && k <= |s|
    requires forall j: nat :: j < k ==> !OccursAt(s, pat, j)
    ensures Occurrences(s, pat) == Occurrences(s[k..], pat)
    decreases k
  {
    if k > 0 && |pat| <= |s| {
      assert !OccursAt(s, pat, 0);
      assert s[0..|pat|] == s[..|pat|];
      forall j: nat | j < k - 1 ensures !OccursAt(s[1..], pat, j) {
        OccursAtShift(s, pat, 1, j);
      }
      OccurrencesSkip(s[1..], pat, k - 1);
      assert s[1..][k - 1..] == s[k..];
    } else if k > 0 {
      NoOccurrencesShort(s[k..], pat);
    }
  }

  lemma {:induction false} NoOccurrencesShort(s: string, pat: string)
    requires pat != [] && |s| < |pat|
    ensures Occurrences(s, pat) == 0
  {
  }

  /** Splitting on a pattern that cannot overlap itself gives one piece more
      than the pattern has occurrences. */
  lemma {:induction false} SplitCount(s: string, sep: string)
    requires sep != [] && NoSelfOverlap(sep)
    ensures |Split(s, sep)| == Occurrences(s, sep) + 1
    decreases |s|
  {
    match Find(s, sep)
    case None =>
      NoOccurrences(s, sep);
    case Some(i) =>
      OccurrencesSkip(s, sep, i);
      var t := s[i..];
      OccursAtShift(s, sep, i, 0);
      assert t[..|sep|] == sep;
      assert Occurrences(t, sep) == 1 + Occurrences(t[1..], sep);
      forall j: nat | j < |sep| - 1 ensures !OccursAt(t[1..], sep, j) {
        OccursAtShift(t, sep, 1, j);
        OccursAtShift(s, sep, i, 1 + j);
        OccurrencesApart(s, sep, i, 1 + j);
      }
      OccurrencesSkip(t[1..], sep, |sep| - 1);
      assert t[1..][|sep| - 1..] == s[i + |sep|..];
      SplitCount(s[i + |sep|..], sep);
  }

  lemma {:induction false} ItemSeparatorNoSelfOverlap()
    ensures NoSelfOverlap(ITEM_SEPARATOR)
  {
    assert ITEM_SEPARATOR[1..] == " '" && ITEM_SEPARATOR[..2] == ", ";
    assert ITEM_SEPARATOR[2..] == "'" && ITEM_SEPARATOR[..1] == ",";
  }

  /** `extract_keys` yields one key per occurrence of `, '`, plus one: never
      none, and a single (empty) key for an empty file. */
  lemma {:induction false} KeyCount(contents: string)
    ensures |ExtractKeys(contents)| == Occurrences(contents, ITEM_SEPARATOR) + 1
    ensures contents == [] ==> ExtractKeys(contents) == [[]]
  {
    ItemSeparatorNoSelfOverlap();
    SplitCount(contents, ITEM_SEPARATOR);
    if contents == [] {
      assert Split(contents, ITEM_SEPARATOR) == [[]];
    }
  }

  /** Where the `k`-th piece begins in the joined text. */
  function PieceStart(pieces: seq<string>, sep: string, k: nat): nat
    requires k < |pieces|
  {
    if k == 0 then 0 else |pieces[0]| + |sep| + PieceStart(pieces[1..], sep, k - 1)
  }

  lemma {:induction false} JoinHoldsPiece(pieces: seq<string>, sep: string, k: nat)
    requires k < |pieces|
    ensures PieceStart(pieces, sep, k) + |pieces[k]| <= |Join(pieces, sep)|
    ensures Join(pieces, sep)[PieceStart(pieces, sep, k)..PieceStart(pieces, sep, k) + |pieces[k]|] == pieces[k]
    ensures k + 1 < |pieces| ==>
              PieceStart(pieces, sep, k + 1) == PieceStart(pieces, sep, k) + |pieces[k]| + |sep|
  {
    if k == 0 {
      if |pieces| > 1 {
        assert PieceStart(pieces[1..], sep, 0) == 0;
      }
    } else {
      JoinHoldsPiece(pieces[1..], sep, k - 1);
      var head := pieces[0] + sep;
      var start := PieceStart(pieces[1..], sep, k - 1);
      assert Join(pieces, sep) == head + Join(pieces[1..], sep);
      assert (head + Join(pieces[1..], sep))[|head| + start..|head| + start + |pieces[k]|]
          == Join(pieces[1..], sep)[start..start + |pieces[k]|];
    }
  }

  /** Where the `k`-th key begins in the file. */
  function KeyOffset(contents: string, k: nat): nat
    requires k < |Split(contents, ITEM_SEPARATOR)|
  {
    var items := Split(contents, ITEM_SEPARATOR);
    PieceStart(items, ITEM_SEPARATOR, k) + KeyStart(items[k])
  }

  /** Every key is the stretch of the file at its offset. */
  lemma {:induction false} KeyIsStretchOfInput(contents: string, k: nat)
    requires k < |ExtractKeys(contents)|
    ensures KeyOffset(contents, k) + |ExtractKeys(contents)[k]| <= |contents|
    ensures contents[KeyOffset(contents, k)..KeyOffset(contents, k) + |ExtractKeys(contents)[k]|]
            == ExtractKeys(contents)[k]
  {
    var items := Split(contents, ITEM_SEPARATOR);
    assert ExtractKeys(contents)[k] == KeyOf(items[k]);
    KeyIsStretchOfJoin(items, k);
  }

  /** The key of the `k`-th item, found in the items joined back together. */
  lemma {:induction false} KeyIsStretchOfJoin(items: seq<string>, k: nat)
    requires k < |items|
    ensures var start := PieceStart(items, ITEM_SEPARATOR, k) + KeyStart(items[k]);
      && start + |KeyOf(items[k])| <= |Join(items, ITEM_SEPARATOR)|
      && Join(items, ITEM_SEPARATOR)[start..start + |KeyOf(items[k])|] == KeyOf(items[k])
  {
    var key := KeyOf(items[k]);
    var a := KeyStart(items[k]);
    StretchOfJoin(items, ITEM_SEPARATOR, k, a, a + |key|);
  }

  /** A stretch of the `k`-th piece is the same stretch of the joined text,
      shifted by where the piece begins. */
  lemma {:induction false} StretchOfJoin(pieces: seq<string>, sep: string, k: nat, a: nat, b: nat)
    requires k < |pieces| && a <= b <= |pieces[k]|
    ensures PieceStart(pieces, sep, k) + b <= |Join(pieces, sep)|
    ensures Join(pieces, sep)[PieceStart(pieces, sep, k) + a..PieceStart(pieces, sep, k) + b] == pieces[k][a..b]
  {
    JoinHoldsPiece(pieces, sep, k);
    SliceOfSlice(Join(pieces, sep), PieceStart(pieces, sep, k), pieces[k], a, b - a);
  }

  lemma {:induction false} SliceOfSlice(s: string, a: nat, t: string, b: nat, m: nat)
    requires a + |t| <= |s| && s[a..a + |t|] == t
    requires b + m <= |t|
    ensures s[a + b..a + b + m] == t[b..b + m]
  {
    forall i | b <= i < b + m ensures s[a + i] == t[i] {
      assert s[a..a + |t|][i] == s[a + i];
    }
    assert s[a + b..a + b + m] == t[b..b + m];
  }

  /** The keys come in the order of the file, each ending at least a `, '`
      before the next one begins. */
  lemma {:induction false} KeysInInputOrder(contents: string, k: nat)
    requires k + 1 < |ExtractKeys(contents)|
    ensures KeyOffset(contents, k) + |ExtractKeys(contents)[k]| + |ITEM_SEPARATOR| <= KeyOffset(contents, k + 1)
  {
    var items := Split(contents, ITEM_SEPARATOR);
    assert ExtractKeys(contents)[k] == KeyOf(items[k]);
    JoinHoldsPiece(items, ITEM_SEPARATOR, k);
  }

  /** The keys, taken apart: none is wrapped in `'` or `{` and none still
      holds a `': '`. */
  lemma {:induction false} KeysAreTrimmed(contents: string, k: nat)
    requires k < |ExtractKeys(contents)|
    ensures var key := ExtractKeys(contents)[k];
      && (key == [] || (!IsTrimmed(key[0]) && !IsTrimmed(key[|key| - 1])))
      && !Contains(key, KEY_SEPARATOR)
  {
    var item := Split(contents, ITEM_SEPARATOR)[k];
    var first := FirstPiece(item, KEY_SEPARATOR);
    SliceAvoids(first, KEY_SEPARATOR, TrimStart(first), TrimStart(first) + |TrimMatches(first)|);
  }
}
/** The example the symbols file format is built around, worked through. */
module KeysExample {
  import opened Wrappers
  import opened Keys

  /** The leftmost occurrence is found where the pattern's `c`-th character
      first lines up. */
  lemma {:induction false} FindAt(s: string, pat: string, i: nat, c: nat)
    requires c < |pat|
    requires OccursAt(s, pat, i)
    requires forall p :: c <= p < i + c && p + |pat| <= |s| + c ==> s[p] != pat[c]
    ensures Find(s, pat) == Some(i)
  {
    assert OccursAt(s, pat, i);
    var r := Find(s, pat);
    assert r.Some?;
    var k := r.value;
    assert s[k..k + |pat|][c] == s[k + c];
  }

  /** Nothing is found when the pattern's `c`-th character never lines up. */
  lemma {:induction false} FindNone(s: string, pat: string, c: nat)
    requires c < |pat|
    requires forall p :: c <= p && p + |pat| <= |s| + c ==> s[p] != pat[c]
    ensures Find(s, pat) == None
  {
    forall k: nat ensures !OccursAt(s, pat, k) {
      if k + |pat| <= |s| {
        assert s[k..k + |pat|][c] == s[k + c];
      }
    }
  }

  const CONTENTS: string := "{'A': 'x', 'B': 'y'}"

  lemma FirstItemSeparator()
    ensures Find(CONTENTS, ITEM_SEPARATOR) == Some(9)
  {
    assert CONTENTS[9..12] == ITEM_SEPARATOR;
    forall p | 0 <= p < 9 ensures CONTENTS[p] != ',' {
      assert CONTENTS[..9][p] == CONTENTS[p];
    }
    FindAt(CONTENTS, ITEM_SEPARATOR, 9, 0);
  }

  lemma SecondItemAlone()
    ensures Split("B': 'y'}", ITEM_SEPARATOR) == ["B': 'y'}"]
  {
    var rest := "B': 'y'}";
    forall p | 0 <= p < |rest| ensures rest[p] != ',' {
    }
    FindNone(rest, ITEM_SEPARATOR, 0);
  }

  lemma ExampleItems()
    ensures Split(CONTENTS, ITEM_SEPARATOR) == ["{'A': 'x'", "B': 'y'}"]
  {
    ContentsAroundSeparator();
    FirstItemSeparator();
    SecondItemAlone();
  }

  lemma ContentsAroundSeparator()
    ensures CONTENTS[..9] == "{'A': 'x'"
    ensures CONTENTS[12..] == "B': 'y'}"
  {
  }

  lemma ExampleFirstKey()
    ensures KeyOf("{'A': 'x'") == "A"
  {
    var item := "{'A': 'x'";
    assert item[3..7] == KEY_SEPARATOR;
    FindAt(item, KEY_SEPARATOR, 3, 1);
    assert FirstPiece(item, KEY_SEPARATOR) == "{'A";
    var first := "{'A";
    assert LeadingTrimmed(first[2..]) == 0;
    assert LeadingTrimmed(first[1..]) == 1;
    assert LeadingTrimmed(first) == 2;
    assert first[2..] == "A";
    assert TrailingTrimmed("A") == 0;
  }

  lemma ExampleSecondKey()
    ensures KeyOf("B': 'y'}") == "B"
  {
    var item := "B': 'y'}";
    assert item[1..5] == KEY_SEPARATOR;
    FindAt(item, KEY_SEPARATOR, 1, 1);
    assert FirstPiece(item, KEY_SEPARATOR) == "B";
    assert LeadingTrimmed("B") == 0;
    assert TrailingTrimmed("B") == 0;
  }

  /** `{'A': 'x', 'B': 'y'}` yields `A` then `B`. */
  lemma WorkedExample()
    ensures ExtractKeys(CONTENTS) == ["A", "B"]
  {
    ExampleItems();
    ExampleFirstKey();
    ExampleSecondKey();
  }
}
