/**
 * The URI helper.  Splitting a URI into its components is done by a foreign parser;
 * here those components are given.  The helper hands them out, reads the port as
 * a decimal number, copies the path segments out of the parser's linked list, and
 * splits the query text into a key/value map by hand.
 *
 * The query splitter works with `size_t` positions: `find_first_of` returns
 * `npos` (2^64 - 1) when nothing is found, the substring constructor clamps its
 * length to the end of the string, and the subtraction that computes the value's
 * length wraps around.  So the search for '=' runs past the next '&', a segment
 * whose '&' comes before the next '=' takes everything up to that '=' as its key
 * (`"a&b=c"` yields `{"a&b": "c", "b": "c"}`), and the value of the last segment
 * runs to the end of the text.  An existing key is never overwritten.
 */
module Uri {
  import opened Wrappers

  /** `std::string::npos`, the largest `size_t`. */
  const NPOS: nat := 0xFFFF_FFFF_FFFF_FFFF
  const SIZE_MODULUS: nat := 0x1_0000_0000_0000_0000

  /** The parser's linked list of path segments. */
  datatype Segments = End | Segment(text: string, next: Segments)

  /**
   * The components the parser finds in a URI text.  A port text or a query that
   * the text does not have is `None`; the other components are then empty.
   */
  datatype Components = Components(
    scheme: string, userInfo: string, host: string, portText: Option<string>,
    pathHead: Segments, query: Option<string>, fragment: string)

  /** `uri_t`: the source text and the components the parser found in it. */
  datatype Uri = Uri(source: string, parts: Components)

  /** The external parser: the components of a text, or the error code it fails with. */
  type Parser = string -> Result<Components, int>

  /** The constructor throws `runtime_error` with the text of the parser's error code. */
  datatype ParseError = ParseError(code: int)

  /**
   * The constructor: keeps the source text exactly as given, and the components
   * the parser found; a text the parser rejects yields its error code instead.
   */
  function Construct(source: string, parse: Parser): (r: Result<Uri, ParseError>)
    ensures r.Failure? <==> parse(source).Failure?
    ensures r.Failure? ==> r.error.code == parse(source).error
    ensures r.Success? ==> r.value.source == source && r.value.parts == parse(source).value
  {
    match parse(source)
    case Failure(code) => Failure(ParseError(code))
    case Success(parts) => Success(Uri(source, parts))
  }

  /** The segments of the linked list, first to last. */
  function SegmentTexts(s: Segments): seq<string>
  {
    match s
    case End => []
    case Segment(text, next) => [text] + SegmentTexts(next)
  }

  // ---------------------------------------------------------------------------
  // size_t arithmetic and the string primitives
  // ---------------------------------------------------------------------------

  /** `a - b` on `size_t`. */
  function SizeSub(a: nat, b: nat): (r: nat)
    requires a < SIZE_MODULUS && b < SIZE_MODULUS
    ensures r < SIZE_MODULUS
  {
    if b <= a then a - b else SIZE_MODULUS + a - b
  }

  /** `a + b` on `size_t`. */
  function SizeAdd(a: nat, b: nat): (r: nat)
    requires a < SIZE_MODULUS && b < SIZE_MODULUS
    ensures r < SIZE_MODULUS
  {
    if a + b < SIZE_MODULUS then a + b else a + b - SIZE_MODULUS
  }

  /** `s.find_first_of(c, from)`: the first position at or after `from` holding `c`, or `npos`. */
  function Find(s: string, c: char, from: nat): (r: nat)
    requires |s| < NPOS
    ensures r == NPOS || (from <= r < |s| && s[r] == c)
    decreases |s| - from
  {
    if from >= |s| then NPOS
    else if s[from] == c then from
    else Find(s, c, from + 1)
  }

  /** No position between `from` and what `Find` returns holds `c`. */
  lemma {:induction false} FindFirst(s: string, c: char, from: nat)
    requires |s| < NPOS
    ensures forall i :: from <= i < |s| && (Find(s, c, from) == NPOS || i < Find(s, c, from)) ==> s[i] != c
    decreases |s| - from
  {
    if from < |s| && s[from] != c {
      FindFirst(s, c, from + 1);
    }
  }

  /** `std::string(s, pos, len)`: at most `len` characters from `pos`. */
  function Substring(s: string, pos: nat, len: nat): (r: string)
    requires pos <= |s|
    ensures pos + len >= |s| ==> r == s[pos..]
    ensures pos + len < |s| ==> r == s[pos..pos + len]
  {
    if pos + len >= |s| then s[pos..] else s[pos..pos + len]
  }

  // ---------------------------------------------------------------------------
  // query()
  // ---------------------------------------------------------------------------

  /** The pair one round of the loop would insert for the segment starting at `start`. */
  function SegmentPair(src: string, start: nat): Option<(string, string)>
    requires |src| < NPOS && start <= |src|
  {
    var delimiter := Find(src, '=', start);
    var end := Find(src, '&', start);
    if delimiter == NPOS then None
    else
      Some((Substring(src, start, SizeSub(delimiter, start)),
            Substring(src, delimiter + 1, SizeSub(SizeSub(end, delimiter), 1))))
  }

  /** `std::map::insert`: adds the pair only when the key is absent. */
  function Insert(m: map<string, string>, key: string, value: string): map<string, string>
  {
    if key in m then m else m[key := value]
  }

  /** The loop of `query()` from `start` on, with `acc` inserted so far. */
  function QueryLoop(src: string, start: nat, acc: map<string, string>): map<string, string>
    requires |src| < NPOS && start <= |src|
    decreases |src| - start
  {
    var end := Find(src, '&', start);
    var acc' := match SegmentPair(src, start)
      case None => acc
      case Some((key, value)) => Insert(acc, key, value);
    if end == NPOS then acc' else QueryLoop(src, SizeAdd(end, 1), acc')
  }

  /** What `query()` returns. */
  function QueryOf(u: Uri): map<string, string>
    requires u.parts.query.Some? ==> |u.parts.query.value| < NPOS
  {
    if u.parts.query.None? then map[] else QueryLoop(u.parts.query.value, 0, map[])
  }

  /**
   * The key of a segment runs from its start to the next '='; its value runs to the
   * next '&' when that comes after the '=', and to the end of the text when there is
   * no '&' left or the '&' comes first; without a '=' at or after the start the
   * segment adds nothing.
   */
  lemma SegmentPairCases(src: string, start: nat)
    requires |src| < NPOS && start <= |src|
    ensures var d := Find(src, '=', start);
      var e := Find(src, '&', start);
      && (d == NPOS <==> SegmentPair(src, start).None?)
      && (d != NPOS && e != NPOS && d < e ==> SegmentPair(src, start) == Some((src[start..d], src[d + 1..e])))
      && (d != NPOS && (e == NPOS || e < d) ==> SegmentPair(src, start) == Some((src[start..d], src[d + 1..])))
  {
    var d := Find(src, '=', start);
    var e := Find(src, '&', start);
    if d != NPOS {
      assert SizeSub(d, start) == d - start;
      if e != NPOS && d < e {
        assert SizeSub(SizeSub(e, d), 1) == e - d - 1;
      } else if e != NPOS {
        assert e != d;
        assert SizeSub(e, d) == SIZE_MODULUS + e - d;
        assert SizeSub(SizeSub(e, d), 1) == SIZE_MODULUS + e - d - 1;
      } else {
        assert SizeSub(e, d) == NPOS - d;
      }
    }
  }

  /** "First occurrence wins": an entry already in `acc` is in the result, unchanged. */
  lemma {:induction false} QueryLoopKeeps(src: string, start: nat, acc: map<string, string>, k: string)
    requires |src| < NPOS && start <= |src| && k in acc
    ensures k in QueryLoop(src, start, acc) && QueryLoop(src, start, acc)[k] == acc[k]
    decreases |src| - start
  {
    var end := Find(src, '&', start);
    var acc' := match SegmentPair(src, start)
      case None => acc
      case Some((key, value)) => Insert(acc, key, value);
    assert k in acc' && acc'[k] == acc[k];
    if end != NPOS {
      QueryLoopKeeps(src, SizeAdd(end, 1), acc', k);
    }
  }

  /** When no '=' occurs at or after `start`, the rest of the loop adds nothing. */
  lemma {:induction false} NoDelimiterAddsNothing(src: string, start: nat, acc: map<string, string>)
    requires |src| < NPOS && start <= |src|
    requires Find(src, '=', start) == NPOS
    ensures QueryLoop(src, start, acc) == acc
    decreases |src| - start
  {
    var end := Find(src, '&', start);
    SegmentPairCases(src, start);
    if end != NPOS {
      var next := SizeAdd(end, 1);
      assert Find(src, '=', next) == NPOS by {
        NotFoundFrom(src, '=', start, next);
      }
      NoDelimiterAddsNothing(src, next, acc);
    }
  }

  /** Searching from further on finds nothing either. */
  lemma {:induction false} NotFoundFrom(s: string, c: char, from: nat, later: nat)
    requires |s| < NPOS && from <= later && Find(s, c, from) == NPOS
    ensures Find(s, c, later) == NPOS
    decreases |s| - later
  {
    if later < |s| {
      FindFirst(s, c, from);
      assert s[later] != c;
      NotFoundFrom(s, c, from, later + 1);
    }
  }

  /** The number of rounds the loop makes from `start` on. */
  function Rounds(src: string, start: nat): nat
    requires |src| < NPOS && start <= |src|
    decreases |src| - start
  {
    var end := Find(src, '&', start);
    if end == NPOS then 1 else 1 + Rounds(src, SizeAdd(end, 1))
  }

  /** How many times `c` occurs in `s`. */
  function Count(s: string, c: char): nat
  {
    if s == [] then 0 else (if s[0] == c then 1 else 0) + Count(s[1..], c)
  }

  /** The loop runs once per '&' plus once more, and then stops. */
  lemma {:induction false} RoundsCountAmpersands(src: string, start: nat)
    requires |src| < NPOS && start <= |src|
    ensures Rounds(src, start) == Count(src[start..], '&') + 1
    decreases |src| - start
  {
    var end := Find(src, '&', start);
    FindFirst(src, '&', start);
    if end == NPOS {
      assert forall i :: 0 <= i < |src[start..]| ==> src[start..][i] == src[start + i];
      NoneCounted(src[start..], '&');
    } else {
      RoundsCountAmpersands(src, end + 1);
      CountSplit(src, start, end, '&');
    }
  }

  lemma {:induction false} NoneCounted(s: string, c: char)
    requires forall i :: 0 <= i < |s| ==> s[i] != c
    ensures Count(s, c) == 0
  {
    if s != [] {
      assert forall i :: 0 <= i < |s[1..]| ==> s[1..][i] == s[i + 1];
      NoneCounted(s[1..], c);
    }
  }

  /** A text whose first `c` is at `end` counts one plus what follows `end`. */
  lemma {:induction false} CountSplit(src: string, start: nat, end: nat, c: char)
    requires start <= end < |src| && src[end] == c
    requires forall i :: start <= i < end ==> src[i] != c
    ensures Count(src[start..], c) == 1 + Count(src[end + 1..], c)
    decreases end - start
  {
    assert src[start..][1..] == src[start + 1..];
    if start < end {
      CountSplit(src, start + 1, end, c);
    } else {
      assert src[start..][0] == c;
    }
  }

  // ---------------------------------------------------------------------------
  // Well-formed queries
  // ---------------------------------------------------------------------------

  /** A key with no '=' and no '&', and a value with no '&'. */
  predicate CleanPair(p: (string, string))
  {
    (forall i :: 0 <= i < |p.0| ==> p.0[i] != '=' && p.0[i] != '&') &&
    (forall i :: 0 <= i < |p.1| ==> p.1[i] != '&')
  }

  /** `k1=v1&k2=v2&...&kn=vn`. */
  function Encode(pairs: seq<(string, string)>): string
    requires |pairs| > 0
    decreases |pairs|
  {
    if |pairs| == 1 then pairs[0].0 + "=" + pairs[0].1
    else pairs[0].0 + "=" + pairs[0].1 + "&" + Encode(pairs[1..])
  }

  /** Inserting pairs first to last, never overwriting. */
  function InsertAll(acc: map<string, string>, pairs: seq<(string, string)>): map<string, string>
    decreases |pairs|
  {
    if pairs == [] then acc else InsertAll(Insert(acc, pairs[0].0, pairs[0].1), pairs[1..])
  }

  /** `Find` returns the first position of `c` at or after `from`. */
  lemma {:induction false} FindAt(s: string, c: char, from: nat, r: nat)
    requires |s| < NPOS && from <= r < |s| && s[r] == c
    requires forall i :: from <= i < r ==> s[i] != c
    ensures Find(s, c, from) == r
    decreases r - from
  {
    if from < r {
      FindAt(s, c, from + 1, r);
    }
  }

  /** `Find` returns `npos` when `c` does not occur at or after `from`. */
  lemma {:induction false} FindNone(s: string, c: char, from: nat)
    requires |s| < NPOS
    requires forall i :: from <= i < |s| ==> s[i] != c
    ensures Find(s, c, from) == NPOS
    decreases |s| - from
  {
    if from < |s| {
      FindNone(s, c, from + 1);
    }
  }

  /** Where the parts of a segment `k=v` at `start`, followed by `tail`, lie in `src`. */
  lemma SegmentLayout(src: string, start: nat, k: string, v: string, tail: string, d: nat, e: nat)
    requires CleanPair((k, v)) && (tail == [] || tail[0] == '&')
    requires start <= |src| && src[start..] == k + "=" + v + tail
    requires d == start + |k| && e == d + 1 + |v|
    ensures e <= |src| && src[start..d] == k && src[d] == '=' && src[d + 1..e] == v
    ensures forall i :: start <= i < d ==> src[i] != '=' && src[i] != '&'
    ensures forall i :: d < i < e ==> src[i] != '&'
    ensures tail == [] ==> e == |src| && src[d + 1..] == v
    ensures tail != [] ==> e < |src| && src[e] == '&'
  {
    assert src[start..d] == k by {
      assert src[start..d] == src[start..][..|k|];
    }
    assert src[d] == '=' by {
      assert src[d] == src[start..][|k|];
    }
    assert src[d + 1..e] == v by {
      assert src[d + 1..e] == src[start..][|k| + 1..|k| + 1 + |v|];
    }
    forall i | start <= i < d ensures src[i] != '=' && src[i] != '&' {
      assert src[i] == src[start..d][i - start];
    }
    forall i | d < i < e ensures src[i] != '&' {
      assert src[i] == src[d + 1..e][i - d - 1];
    }
    if tail != [] {
      assert src[e] == src[start..][|k| + 1 + |v|];
    }
  }

  /** The pair a segment yields, from where its '=' and the next '&' lie. */
  lemma SegmentPairAt(src: string, start: nat, d: nat, e: nat)
    requires |src| < NPOS && start <= d < |src|
    requires Find(src, '=', start) == d && Find(src, '&', start) == e
    ensures SegmentPair(src, start) ==
      Some((Substring(src, start, SizeSub(d, start)), Substring(src, d + 1, SizeSub(SizeSub(e, d), 1))))
  {
  }

  /** The value's text: up to the next '&' when it follows the '=', else to the end. */
  lemma ValueText(src: string, d: nat, e: nat, v: string)
    requires |src| < NPOS && d < |src|
    requires (e == NPOS && src[d + 1..] == v) || (d < e <= |src| && src[d + 1..e] == v)
    ensures Substring(src, d + 1, SizeSub(SizeSub(e, d), 1)) == v
  {
    if e == NPOS {
      assert SizeSub(SizeSub(e, d), 1) == NPOS - d - 1;
    } else {
      assert SizeSub(SizeSub(e, d), 1) == e - d - 1;
    }
  }

  /**
   * A segment `k=v` at `start`, followed by `tail` (empty, or starting with '&'): the
   * segment yields `(k, v)`, and the next '&' is the one that starts `tail`.
   */
  lemma OneSegment(src: string, start: nat, k: string, v: string, tail: string)
    requires CleanPair((k, v)) && (tail == [] || tail[0] == '&')
    requires |src| < NPOS && start <= |src| && src[start..] == k + "=" + v + tail
    ensures SegmentPair(src, start) == Some((k, v))
    ensures tail == [] ==> Find(src, '&', start) == NPOS
    ensures tail != [] ==> Find(src, '&', start) == start + |k| + 1 + |v|
  {
    var d := start + |k|;
    var e := d + 1 + |v|;
    SegmentLayout(src, start, k, v, tail, d, e);
    FindAt(src, '=', start, d);
    if tail == [] {
      FindNone(src, '&', start);
      ValueText(src, d, NPOS, v);
    } else {
      FindAt(src, '&', start, e);
      ValueText(src, d, e, v);
    }
    assert SizeSub(d, start) == |k|;
    SegmentPairAt(src, start, d, Find(src, '&', start));
  }

  /** One round of the loop, for a segment that yields `(k, v)`. */
  lemma LoopRound(src: string, start: nat, acc: map<string, string>, k: string, v: string)
    requires |src| < NPOS && start <= |src|
    requires SegmentPair(src, start) == Some((k, v))
    ensures Find(src, '&', start) == NPOS ==> QueryLoop(src, start, acc) == Insert(acc, k, v)
    ensures Find(src, '&', start) != NPOS ==>
      QueryLoop(src, start, acc) == QueryLoop(src, SizeAdd(Find(src, '&', start), 1), Insert(acc, k, v))
  {
  }

  /** One round of the loop, for a segment that yields nothing. */
  lemma NoPairRound(src: string, start: nat, acc: map<string, string>)
    requires |src| < NPOS && start <= |src|
    requires SegmentPair(src, start).None?
    ensures Find(src, '&', start) == NPOS ==> QueryLoop(src, start, acc) == acc
    ensures Find(src, '&', start) != NPOS ==>
      QueryLoop(src, start, acc) == QueryLoop(src, SizeAdd(Find(src, '&', start), 1), acc)
  {
  }

  /** The encoding of two or more pairs is the first pair, '&', and the encoding of the rest. */
  lemma EncodeSplit(pairs: seq<(string, string)>)
    requires |pairs| > 1
    ensures Encode(pairs) == pairs[0].0 + "=" + pairs[0].1 + ("&" + Encode(pairs[1..]))
  {
    var head := pairs[0].0 + "=" + pairs[0].1;
    var rest := Encode(pairs[1..]);
    assert head + "&" + rest == head + ("&" + rest);
  }

  /**
   * The rounds of the loop from `start` on meet the segments of `pairs` in order: each
   * yields its pair, and the last one finds no '&'.
   */
  predicate SegmentsAt(src: string, start: nat, pairs: seq<(string, string)>)
    requires |src| < NPOS && start <= |src|
    decreases |pairs|
  {
    var end := Find(src, '&', start);
    && |pairs| > 0 && SegmentPair(src, start) == Some(pairs[0])
    && (if |pairs| == 1 then end == NPOS else end != NPOS && SegmentsAt(src, end + 1, pairs[1..]))
  }

  /** A final segment `k=v` is met by the last round. */
  lemma LastSegment(src: string, start: nat, k: string, v: string)
    requires CleanPair((k, v))
    requires |src| < NPOS && start <= |src| && src[start..] == k + "=" + v
    ensures SegmentsAt(src, start, [(k, v)])
  {
    assert src[start..] == k + "=" + v + [];
    OneSegment(src, start, k, v, []);
  }

  /** A first segment whose '&' is followed by the segments of the other pairs is met by one more round. */
  lemma NextSegment(src: string, start: nat, pairs: seq<(string, string)>, next: nat)
    requires |pairs| > 1 && |src| < NPOS && start <= |src|
    requires SegmentPair(src, start) == Some(pairs[0])
    requires Find(src, '&', start) != NPOS && Find(src, '&', start) + 1 == next
    requires next <= |src| && SegmentsAt(src, next, pairs[1..])
    ensures SegmentsAt(src, start, pairs)
  {
  }

  /** What follows the '&' after a segment `k=v`. */
  lemma AfterSegment(src: string, start: nat, k: string, v: string, rest: string)
    requires start <= |src| && src[start..] == k + "=" + v + ("&" + rest)
    ensures start + |k| + 1 + |v| + 1 <= |src| && src[start + |k| + 1 + |v| + 1..] == rest
  {
    assert src[start + |k| + 1 + |v| + 1..] == src[start..][|k| + 1 + |v| + 1..];
  }

  /** The text `k1=v1&...&kn=vn` puts the segments of its pairs where the loop meets them. */
  lemma {:induction false} EncodedSegments(src: string, start: nat, pairs: seq<(string, string)>)
    requires |pairs| > 0 && forall i :: 0 <= i < |pairs| ==> CleanPair(pairs[i])
    requires |src| < NPOS && start <= |src| && src[start..] == Encode(pairs)
    ensures SegmentsAt(src, start, pairs)
    decreases |pairs|
  {
    var k, v := pairs[0].0, pairs[0].1;
    assert CleanPair((k, v)) by { assert pairs[0] == (k, v); }
    if |pairs| == 1 {
      LastSegment(src, start, k, v);
      assert pairs == [(k, v)];
    } else {
      var rest := Encode(pairs[1..]);
      EncodeSplit(pairs);
      AfterSegment(src, start, k, v, rest);
      forall i | 0 <= i < |pairs[1..]| ensures CleanPair(pairs[1..][i]) {
        assert pairs[1..][i] == pairs[i + 1];
      }
      var next := start + |k| + 1 + |v| + 1;
      var tail := pairs[1..];
      EncodedSegments(src, next, tail);
      OneSegment(src, start, k, v, "&" + rest);
      assert pairs[0] == (k, v);
      NextSegment(src, start, pairs, next);
    }
  }

  /** The first of the segments that yield `pairs`: one round inserts its pair. */
  lemma FirstRound(src: string, start: nat, pairs: seq<(string, string)>, acc: map<string, string>)
    requires |src| < NPOS && start <= |src| && SegmentsAt(src, start, pairs)
    ensures |pairs| == 1 ==> QueryLoop(src, start, acc) == Insert(acc, pairs[0].0, pairs[0].1)
    ensures |pairs| > 1 ==>
      && Find(src, '&', start) != NPOS && Find(src, '&', start) + 1 <= |src|
      && SegmentsAt(src, Find(src, '&', start) + 1, pairs[1..])
      && QueryLoop(src, start, acc) == QueryLoop(src, Find(src, '&', start) + 1, Insert(acc, pairs[0].0, pairs[0].1))
  {
    var end := Find(src, '&', start);
    assert SegmentPair(src, start) == Some((pairs[0].0, pairs[0].1));
    LoopRound(src, start, acc, pairs[0].0, pairs[0].1);
    if end != NPOS {
      assert SizeAdd(end, 1) == end + 1;
    }
  }

  /** The induction step: one round, then the rest of the segments. */
  lemma SegmentsStep(src: string, start: nat, pairs: seq<(string, string)>, acc: map<string, string>)
    requires |src| < NPOS && start <= |src| && SegmentsAt(src, start, pairs)
    requires |pairs| > 1 ==>
      Find(src, '&', start) + 1 <= |src| &&
      QueryLoop(src, Find(src, '&', start) + 1, Insert(acc, pairs[0].0, pairs[0].1))
        == InsertAll(Insert(acc, pairs[0].0, pairs[0].1), pairs[1..])
    ensures QueryLoop(src, start, acc) == InsertAll(acc, pairs)
  {
    FirstRound(src, start, pairs, acc);
    assert InsertAll(acc, pairs) == InsertAll(Insert(acc, pairs[0].0, pairs[0].1), pairs[1..]);
    if |pairs| == 1 {
      assert pairs[1..] == [];
    }
  }

  /** Over segments that yield `pairs`, the loop inserts those pairs in order. */
  lemma {:induction false} QueryLoopOfSegments(src: string, start: nat, pairs: seq<(string, string)>, acc: map<string, string>)
    requires |src| < NPOS && start <= |src| && SegmentsAt(src, start, pairs)
    ensures QueryLoop(src, start, acc) == InsertAll(acc, pairs)
    decreases |pairs|, 1
  {
    if |pairs| > 1 {
      QueryLoopOfMoreSegments(src, start, pairs, acc);
    } else {
      SegmentsStep(src, start, pairs, acc);
    }
  }

  /** The same, for two or more segments: the first round, then the others. */
  lemma {:induction false} QueryLoopOfMoreSegments(src: string, start: nat, pairs: seq<(string, string)>, acc: map<string, string>)
    requires |src| < NPOS && start <= |src| && SegmentsAt(src, start, pairs) && |pairs| > 1
    ensures QueryLoop(src, start, acc) == InsertAll(acc, pairs)
    decreases |pairs|, 0
  {
    FirstRound(src, start, pairs, acc);
    QueryLoopOfSegments(src, Find(src, '&', start) + 1, pairs[1..], Insert(acc, pairs[0].0, pairs[0].1));
    SegmentsStep(src, start, pairs, acc);
  }

  /** The value `InsertAll` keeps for a key is that of its first pair. */
  lemma {:induction false} InsertAllFirst(acc: map<string, string>, pairs: seq<(string, string)>, j: int)
    requires 0 <= j < |pairs| && pairs[j].0 !in acc
    requires forall i :: 0 <= i < j ==> pairs[i].0 != pairs[j].0
    ensures pairs[j].0 in InsertAll(acc, pairs) && InsertAll(acc, pairs)[pairs[j].0] == pairs[j].1
    decreases |pairs|
  {
    var acc' := Insert(acc, pairs[0].0, pairs[0].1);
    if j == 0 {
      InsertAllKeeps(acc', pairs[1..], pairs[0].0);
    } else {
      assert pairs[1..][j - 1] == pairs[j];
      forall i | 0 <= i < j - 1 ensures pairs[1..][i].0 != pairs[1..][j - 1].0 {
        assert pairs[1..][i] == pairs[i + 1];
      }
      InsertAllFirst(acc', pairs[1..], j - 1);
    }
  }

  lemma {:induction false} InsertAllKeeps(acc: map<string, string>, pairs: seq<(string, string)>, k: string)
    requires k in acc
    ensures k in InsertAll(acc, pairs) && InsertAll(acc, pairs)[k] == acc[k]
    decreases |pairs|
  {
    if pairs != [] {
      InsertAllKeeps(Insert(acc, pairs[0].0, pairs[0].1), pairs[1..], k);
    }
  }

  /** The keys of a list of pairs. */
  function PairKeys(pairs: seq<(string, string)>): set<string>
  {
    set i | 0 <= i < |pairs| :: pairs[i].0
  }

  /** A key of the result is a key of some pair, or of `acc`. */
  lemma {:induction false} InsertAllKeys(acc: map<string, string>, pairs: seq<(string, string)>)
    ensures InsertAll(acc, pairs).Keys == acc.Keys + PairKeys(pairs)
    decreases |pairs|
  {
    if pairs != [] {
      InsertAllKeys(Insert(acc, pairs[0].0, pairs[0].1), pairs[1..]);
      assert PairKeys(pairs) == {pairs[0].0} + PairKeys(pairs[1..]) by {
        forall x | x in PairKeys(pairs) ensures x in {pairs[0].0} + PairKeys(pairs[1..])
        {
          var i :| 0 <= i < |pairs| && pairs[i].0 == x;
          if i > 0 { assert pairs[1..][i - 1] == pairs[i]; }
        }
        forall x | x in PairKeys(pairs[1..]) ensures x in PairKeys(pairs)
        {
          var i :| 0 <= i < |pairs[1..]| && pairs[1..][i].0 == x;
          assert pairs[i + 1] == pairs[1..][i];
        }
      }
    }
  }

  /**
   * For `k1=v1&...&kn=vn`, keys free of '=' and '&' and values free of '&', the
   * result holds exactly the keys k1..kn, and each key maps to the value of its
   * first occurrence; with no repeated key, each ki maps to vi.
   */
  lemma WellFormedQuery(pairs: seq<(string, string)>)
    requires |pairs| > 0 && forall i :: 0 <= i < |pairs| ==> CleanPair(pairs[i])
    requires |Encode(pairs)| < NPOS
    ensures QueryLoop(Encode(pairs), 0, map[]).Keys == PairKeys(pairs)
    ensures forall j :: 0 <= j < |pairs| && (forall i :: 0 <= i < j ==> pairs[i].0 != pairs[j].0) ==>
      QueryLoop(Encode(pairs), 0, map[])[pairs[j].0] == pairs[j].1
  {
    assert Encode(pairs)[0..] == Encode(pairs);
    EncodedSegments(Encode(pairs), 0, pairs);
    QueryLoopOfSegments(Encode(pairs), 0, pairs, map[]);
    InsertAllKeys(map[], pairs);
    forall j | 0 <= j < |pairs| && (forall i :: 0 <= i < j ==> pairs[i].0 != pairs[j].0)
      ensures QueryLoop(Encode(pairs), 0, map[])[pairs[j].0] == pairs[j].1
    {
      InsertAllFirst(map[], pairs, j);
    }
  }

  /** The search for '=' runs past the '&': `"a&b=c"` yields `{"a&b": "c", "b": "c"}`. */
  lemma DelimiterPastAmpersand()
    ensures QueryLoop("a&b=c", 0, map[]) == map["a&b" := "c", "b" := "c"]
  {
    var src := "a&b=c";
    FindAt(src, '=', 0, 3);
    FindAt(src, '&', 0, 1);
    SegmentPairCases(src, 0);
    assert src[0..3] == "a&b" && src[4..] == "c";
    FindAt(src, '=', 2, 3);
    FindNone(src, '&', 2);
    SegmentPairCases(src, 2);
    assert src[2..3] == "b";
    assert SizeAdd(1, 1) == 2;
  }

  /** `query()`: the do-while loop over the query text; no query text gives an empty map. */
  method Query(u: Uri) returns (query: map<string, string>, ghost rounds: nat)
    requires u.parts.query.Some? ==> |u.parts.query.value| < NPOS
    ensures query == QueryOf(u)
    ensures u.parts.query.None? ==> query == map[] && rounds == 0
    ensures u.parts.query.Some? ==> rounds == Count(u.parts.query.value, '&') + 1
  {
    query, rounds := map[], 0;
    if u.parts.query.Some? {
      var src := u.parts.query.value;
      var start := 0;
      while true
        invariant start <= |src|
        invariant QueryLoop(src, start, query) == QueryLoop(src, 0, map[])
        invariant rounds + Rounds(src, start) == Rounds(src, 0)
        decreases |src| - start
      {
        rounds := rounds + 1;
        var delimiter := Find(src, '=', start);
        var end := Find(src, '&', start);
        if delimiter != NPOS {
          var key := Substring(src, start, SizeSub(delimiter, start));
          var value := Substring(src, delimiter + 1, SizeSub(SizeSub(end, delimiter), 1));
          assert SegmentPair(src, start) == Some((key, value));
          LoopRound(src, start, query, key, value);
          query := Insert(query, key, value);
        } else {
          NoPairRound(src, start, query);
        }
        start := SizeAdd(end, 1);
        if end == NPOS {
          break;
        }
      }
      RoundsCountAmpersands(src, 0);
      assert src[0..] == src;
    }
  }

  // ---------------------------------------------------------------------------
  // path(), port() and the plain accessors
  // ---------------------------------------------------------------------------

  /** `path()`: walks the segment list and collects the texts in list order. */
  method Path(u: Uri) returns (path: seq<string>)
    ensures path == SegmentTexts(u.parts.pathHead)
  {
    path := [];
    var segment := u.parts.pathHead;
    while segment.Segment?
      invariant path + SegmentTexts(segment) == SegmentTexts(u.parts.pathHead)
      decreases segment
    {
      path := path + [segment.text];
      segment := segment.next;
    }
  }

  predicate IsDigit(c: char)
  {
    '0' as int <= c as int <= '9' as int
  }

  /** The value of a run of decimal digits. */
  function DecimalValue(s: string): nat
    requires forall i :: 0 <= i < |s| ==> IsDigit(s[i])
    decreases |s|
  {
    if s == [] then 0
    else
      var last := s[|s| - 1];
      assert IsDigit(last);
      10 * DecimalValue(s[..|s| - 1]) + (last as int - '0' as int)
  }

  /** The leading run of decimal digits of `s`. */
  function DigitPrefix(s: string): (r: string)
    ensures |r| <= |s| && r == s[..|r|]
    ensures forall i :: 0 <= i < |r| ==> IsDigit(r[i])
    ensures |r| < |s| ==> !IsDigit(s[|r|])
    decreases |s|
  {
    if s == [] || !IsDigit(s[0]) then [] else [s[0]] + DigitPrefix(s[1..])
  }

  /** The largest `unsigned int`. */
  const UINT_MAX: nat := 0xFFFF_FFFF

  /**
   * `port()`: 0 without port text; otherwise the number the text starts with, read
   * as an unsigned decimal: 0 when it starts with no digit, and the largest
   * `unsigned int` when the number does not fit.
   */
  function Port(u: Uri): (port: nat)
    ensures port <= UINT_MAX
    ensures u.parts.portText.None? ==> port == 0
  {
    match u.parts.portText
    case None => 0
    case Some(text) =>
      var n := DecimalValue(DigitPrefix(text));
      if n > UINT_MAX then UINT_MAX else n
  }

  /** The decimal text of `n`. */
  function Decimal(n: nat): (s: string)
    ensures |s| > 0 && forall i :: 0 <= i < |s| ==> IsDigit(s[i])
  {
    if n < 10 then [('0' as int + n) as char]
    else Decimal(n / 10) + [('0' as int + n % 10) as char]
  }

  /**
   * A port text made of the decimal digits of `n`, followed by anything that does
   * not start with a digit, reads back as `n` (or as the largest `unsigned int`
   * when `n` is larger).
   */
  lemma PortOfDecimal(u: Uri, n: nat, rest: string)
    requires u.parts.portText == Some(Decimal(n) + rest)
    requires rest == [] || !IsDigit(rest[0])
    ensures Port(u) == if n <= UINT_MAX then n else UINT_MAX
  {
    DecimalRoundTrip(n);
    DigitPrefixOf(Decimal(n), rest);
  }

  /** A port text that does not start with a digit reads as 0. */
  lemma PortWithoutDigits(u: Uri)
    requires u.parts.portText.Some?
    requires u.parts.portText.value == [] || !IsDigit(u.parts.portText.value[0])
    ensures Port(u) == 0
  {
  }

  lemma {:induction false} DecimalRoundTrip(n: nat)
    ensures DecimalValue(Decimal(n)) == n
  {
    var s := Decimal(n);
    if n >= 10 {
      assert s[..|s| - 1] == Decimal(n / 10);
      DecimalRoundTrip(n / 10);
    } else {
      assert s[..|s| - 1] == [];
    }
  }

  /** The leading digits of a run of digits followed by a non-digit are that run. */
  lemma {:induction false} DigitPrefixOf(d: string, rest: string)
    requires forall i :: 0 <= i < |d| ==> IsDigit(d[i])
    requires rest == [] || !IsDigit(rest[0])
    ensures DigitPrefix(d + rest) == d
  {
    if d == [] {
      assert d + rest == rest;
    } else {
      assert (d + rest)[0] == d[0];
      assert (d + rest)[1..] == d[1..] + rest;
      DigitPrefixOf(d[1..], rest);
      assert [d[0]] + d[1..] == d;
    }
  }
}
