/**
 * The launcher's parser for the `--buyers` option: a comma-separated list of
 * `jid:password` entries becomes a list of (jid, password) pairs.
 */
module RunAgents {
  import opened Common

  /** The parser's outcome: the pairs, or the `ValueError` it raises. */
  datatype ParseResult =
    | Ok(pairs: seq<(string, string)>)
    | ValueError(message: string)

  const FORMAT_ERROR: string := "Each buyer must be specified as jid:password"

  /** The characters Python's `str.strip()` removes by default (`str.isspace`). */
  predicate IsSpace(c: char) {
    || c == ' ' || '\t' <= c <= '\r' || '\U{001C}' <= c <= '\U{001F}'
    || c == '\U{0085}' || c == '\U{00A0}' || c == '\U{1680}' || '\U{2000}' <= c <= '\U{200A}'
    || c == '\U{2028}' || c == '\U{2029}' || c == '\U{202F}' || c == '\U{205F}' || c == '\U{3000}'
  }

  /** Neither the first nor the last character is whitespace. */
  predicate Trimmed(s: string) {
    |s| == 0 || (!IsSpace(s[0]) && !IsSpace(s[|s| - 1]))
  }

  /** `s.lstrip()`: the longest suffix of `s` that does not start with whitespace. */
  function TrimLeft(s: string): (r: string)
    ensures |r| <= |s| && r == s[|s| - |r|..]
    ensures |r| > 0 ==> !IsSpace(r[0])
    ensures forall k :: 0 <= k < |s| - |r| ==> IsSpace(s[k])
  {
    if |s| > 0 && IsSpace(s[0]) then TrimLeft(s[1..]) else s
  }

  /** `s.rstrip()`: the longest prefix of `s` that does not end with whitespace. */
  function TrimRight(s: string): (r: string)
    ensures |r| <= |s| && r == s[..|r|]
    ensures |r| > 0 ==> !IsSpace(r[|r| - 1])
    ensures forall k :: |r| <= k < |s| ==> IsSpace(s[k])
  {
    if |s| > 0 && IsSpace(s[|s| - 1]) then TrimRight(s[..|s| - 1]) else s
  }

  /** `s.strip()`: `s` without its leading and trailing whitespace. */
  function Strip(s: string): (r: string)
    ensures Trimmed(r)
  {
    var left := TrimLeft(s);
    var r := TrimRight(left);
    assert |r| > 0 ==> r[0] == left[0];
    r
  }

  /** Whatever way `s` is written as whitespace, then a text with no surrounding
    * whitespace, then whitespace, stripping gives exactly that middle text.
    * Every text can be written so, which pins `Strip` down on every input. */
  lemma StripCore(s: string, a: nat, b: nat)
    requires a <= b <= |s|
    requires forall k :: 0 <= k < a ==> IsSpace(s[k])
    requires forall k :: b <= k < |s| ==> IsSpace(s[k])
    requires Trimmed(s[a..b])
    ensures Strip(s) == s[a..b]
  {
    var left := TrimLeft(s);
    var c := |s| - |left|;
    if a == b {
      assert forall k :: 0 <= k < |s| ==> IsSpace(s[k]);
    } else {
      assert !IsSpace(s[a]) && !IsSpace(s[b - 1]);
      assert c == a;
      assert left == s[a..];
      var r := TrimRight(left);
      assert |r| == b - a by {
        assert left[b - a - 1] == s[b - 1];
      }
    }
  }

  /** Stripping only removes characters: a character absent from `s` is absent from the result. */
  lemma StripKeepsOut(s: string, c: char)
    requires c !in s
    ensures c !in Strip(s)
  {
    var left := TrimLeft(s);
    var r := TrimRight(left);
    assert left == s[|s| - |left|..];
    assert r == left[..|r|];
  }

  /** Stripping leaves an already stripped text alone. */
  lemma StripTrimmed(s: string)
    requires Trimmed(s)
    ensures Strip(s) == s
  {
  }

  /** The index of the first `c` in `s`, or `|s|` when there is none. */
  function Find(s: string, c: char): (i: nat)
    ensures i <= |s|
    ensures i < |s| ==> s[i] == c
    ensures forall j :: 0 <= j < i ==> s[j] != c
  {
    if |s| == 0 then 0
    else if s[0] == c then 0
    else 1 + Find(s[1..], c)
  }

  /** `s.split(sep)`: the pieces between occurrences of `sep`, empty ones included. */
  function Split(s: string, sep: char): (r: seq<string>)
    ensures |r| >= 1
    ensures forall k :: 0 <= k < |r| ==> sep !in r[k]
    decreases |s|
  {
    var i := Find(s, sep);
    if i == |s| then [s]
    else
      assert sep !in s[..i];
      [s[..i]] + Split(s[i + 1..], sep)
  }

  /** `sep.join(ts)`. */
  function Join(ts: seq<string>, sep: char): (s: string) {
    if |ts| == 0 then ""
    else if |ts| == 1 then ts[0]
    else ts[0] + [sep] + Join(ts[1..], sep)
  }

  /** `token.split(':', 1)` followed by stripping both halves. */
  function SplitPair(token: string): (r: (string, string))
    requires ':' in token
    ensures ':' !in r.0 && Trimmed(r.0) && Trimmed(r.1)
  {
    var i := Find(token, ':');
    StripKeepsOut(token[..i], ':');
    (Strip(token[..i]), Strip(token[i + 1..]))
  }

  /** What parsing the option yields: nothing for a missing or empty option, an
    * error when some comma-separated token has no `:`, and otherwise one pair
    * per token, in order. */
  function ParseSpec(spec: Option<string>): (r: ParseResult) {
    if spec.None? || spec.value == "" then Ok([])
    else
      var tokens := Split(spec.value, ',');
      if exists k :: 0 <= k < |tokens| && ':' !in tokens[k] then ValueError(FORMAT_ERROR)
      else Ok(seq(|tokens|, k requires 0 <= k < |tokens| => SplitPair(tokens[k])))
  }

  /** The parser: walks the tokens, appending one pair per token and raising
    * on the first token without `:`. */
  method ParseBuyersSpec(spec: Option<string>) returns (r: ParseResult)
    ensures r == ParseSpec(spec)
  {
    var pairs: seq<(string, string)> := [];
    if spec.None? || spec.value == "" {
      return Ok(pairs);
    }
    var tokens := Split(spec.value, ',');
    var k := 0;
    while k < |tokens|
      invariant 0 <= k <= |tokens|
      invariant |pairs| == k
      invariant forall j :: 0 <= j < k ==> ParsedAs(tokens[j], pairs[j])
    {
      var token := tokens[k];
      if ':' !in token {
        ParseSpecRejects(spec.value, k);
        return ValueError(FORMAT_ERROR);
      }
      pairs := pairs + [SplitPair(token)];
      k := k + 1;
    }
    ParseSpecAccepts(spec.value, pairs);
    return Ok(pairs);
  }

  /** `pair` is what the parser makes of `token`. */
  predicate ParsedAs(token: string, pair: (string, string)) {
    ':' in token && pair == SplitPair(token)
  }

  /** One token without `:` makes the whole option fail. */
  lemma ParseSpecRejects(text: string, k: nat)
    requires text != ""
    requires k < |Split(text, ',')| && ':' !in Split(text, ',')[k]
    ensures ParseSpec(Some(text)) == ValueError(FORMAT_ERROR)
  {
  }

  /** When every token holds `:`, the result is the tokens' pairs in order. */
  lemma ParseSpecAccepts(text: string, pairs: seq<(string, string)>)
    requires text != ""
    requires |pairs| == |Split(text, ',')|
    requires forall j :: 0 <= j < |pairs| ==> ParsedAs(Split(text, ',')[j], pairs[j])
    ensures ParseSpec(Some(text)) == Ok(pairs)
  {
    var tokens := Split(text, ',');
    assert pairs == seq(|tokens|, j requires 0 <= j < |tokens| => SplitPair(tokens[j]));
  }

  /** The option text for a list of pairs: `jid:password` entries joined by commas. */
  function FormatSpec(pairs: seq<(string, string)>): (spec: string) {
    Join(seq(|pairs|, k requires 0 <= k < |pairs| => pairs[k].0 + ":" + pairs[k].1), ',')
  }

  /** Splitting undoes joining, when no piece contains the separator. */
  lemma {:induction false} SplitJoin(ts: seq<string>, sep: char)
    requires |ts| >= 1
    requires forall k :: 0 <= k < |ts| ==> sep !in ts[k]
    ensures Split(Join(ts, sep), sep) == ts
  {
    var s := Join(ts, sep);
    if |ts| == 1 {
      assert Find(s, sep) == |s|;
    } else {
      var head, rest := ts[0], ts[1..];
      assert ts == [head] + rest;
      JoinCons(head, rest, sep);
      assert Find(s, sep) == |head| by {
        FindFirst(s, sep, |head|);
      }
      SplitAtFirst(s, sep);
      assert s[..|head|] == head && s[|head| + 1..] == Join(rest, sep);
      SplitJoin(rest, sep);
    }
  }

  /** Joining undoes splitting: the tokens are exactly the text between separators. */
  lemma {:induction false} JoinSplit(s: string, sep: char)
    ensures Join(Split(s, sep), sep) == s
    decreases |s|
  {
    var i := Find(s, sep);
    if i < |s| {
      var head, tail := s[..i], s[i + 1..];
      SplitAtFirst(s, sep);
      JoinCons(head, Split(tail, sep), sep);
      JoinSplit(tail, sep);
      assert s == head + [sep] + tail;
    }
  }

  /** Joining a first piece before further pieces puts one separator between them. */
  lemma JoinCons(head: string, rest: seq<string>, sep: char)
    requires |rest| >= 1
    ensures Join([head] + rest, sep) == head + [sep] + Join(rest, sep)
  {
    assert ([head] + rest)[1..] == rest;
  }

  /** The first piece of a split is the text before the first separator. */
  lemma SplitAtFirst(s: string, sep: char)
    requires Find(s, sep) < |s|
    ensures Split(s, sep) == [s[..Find(s, sep)]] + Split(s[Find(s, sep) + 1..], sep)
  {
  }

  /** A text ending in a comma has an empty last token, which holds no `:`. */
  lemma {:induction false} TrailingCommaRejected(s: string)
    ensures ParseSpec(Some(s + ",")) == ValueError(FORMAT_ERROR)
  {
    var tokens := Split(s + ",", ',');
    SplitTrailingSeparator(s, ',');
    assert ':' !in tokens[|tokens| - 1];
  }

  lemma {:induction false} SplitTrailingSeparator(s: string, sep: char)
    ensures var r := Split(s + [sep], sep); r[|r| - 1] == ""
    decreases |s|
  {
    var t := s + [sep];
    var i := Find(t, sep);
    assert i <= |s| by {
      assert t[|s|] == sep;
    }
    var r := Split(t, sep);
    if i < |s| {
      var tail := s[i + 1..];
      assert t[i + 1..] == tail + [sep];
      var r' := Split(tail + [sep], sep);
      assert r == [t[..i]] + r';
      assert r[|r| - 1] == r'[|r'| - 1];
      SplitTrailingSeparator(tail, sep);
    } else {
      assert t[i + 1..] == "";
      assert Split("", sep) == [""];
      assert r == [t[..i]] + [""];
    }
  }

  /** Every parsed jid is free of `:`, and both halves of every pair are stripped. */
  lemma ParsedPairsClean(spec: Option<string>)
    ensures ParseSpec(spec).Ok? ==>
              forall k :: 0 <= k < |ParseSpec(spec).pairs| ==>
                var pair := ParseSpec(spec).pairs[k];
                ':' !in pair.0 && Trimmed(pair.0) && Trimmed(pair.1)
  {
    if ParseSpec(spec).Ok? && spec.Some? && spec.value != "" {
      var tokens := Split(spec.value, ',');
      forall k | 0 <= k < |tokens|
        ensures ':' !in SplitPair(tokens[k]).0
      {
        var token := tokens[k];
        var i := Find(token, ':');
        StripKeepsOut(token[..i], ':');
      }
    }
  }

  /** Formatting a list of clean pairs and parsing the text gives the list back. */
  lemma RoundTrip(pairs: seq<(string, string)>)
    requires forall k :: 0 <= k < |pairs| ==>
               && ':' !in pairs[k].0 && ',' !in pairs[k].0 && ',' !in pairs[k].1
               && Trimmed(pairs[k].0) && Trimmed(pairs[k].1)
    ensures ParseSpec(Some(FormatSpec(pairs))) == Ok(pairs)
  {
    if |pairs| > 0 {
      var tokens := seq(|pairs|, k requires 0 <= k < |pairs| => pairs[k].0 + ":" + pairs[k].1);
      var spec := FormatSpec(pairs);
      assert spec == Join(tokens, ',');
      forall k | 0 <= k < |tokens|
        ensures ',' !in tokens[k] && ParsedAs(tokens[k], pairs[k])
      {
        assert tokens[k] == pairs[k].0 + ":" + pairs[k].1;
        SplitPairOfEntry(pairs[k].0, pairs[k].1);
      }
      SplitJoin(tokens, ',');
      assert spec != "" by {
        JoinLength(tokens, ',');
      }
      ParseSpecAccepts(spec, pairs);
    }
  }

  /** One `jid:password` entry splits back into its two halves. */
  lemma SplitPairOfEntry(jid: string, pwd: string)
    requires ':' !in jid && Trimmed(jid) && Trimmed(pwd)
    ensures ':' in jid + ":" + pwd
    ensures SplitPair(jid + ":" + pwd) == (jid, pwd)
  {
    EntryHalves(jid, pwd);
    StripTrimmed(jid);
    StripTrimmed(pwd);
  }

  /** In `jid:pwd` with no `:` in `jid`, the first `:` sits right after `jid`. */
  lemma EntryHalves(jid: string, pwd: string)
    requires ':' !in jid
    ensures var token := jid + ":" + pwd;
            && ':' in token && Find(token, ':') == |jid|
            && token[..|jid|] == jid && token[|jid| + 1..] == pwd
  {
    var token := jid + ":" + pwd;
    assert token[|jid|] == ':';
    forall j | 0 <= j < |jid|
      ensures token[j] != ':'
    {
      assert token[j] == jid[j];
    }
    FindFirst(token, ':', |jid|);
    assert token[..|jid|] == jid;
    assert token[|jid| + 1..] == pwd;
  }

  /** `Find` returns the first occurrence. */
  lemma FindFirst(s: string, c: char, n: nat)
    requires n < |s| && s[n] == c
    requires forall j :: 0 <= j < n ==> s[j] != c
    ensures Find(s, c) == n
  {
  }

  /** A join is at least as long as its first piece plus one separator per further piece. */
  lemma {:induction false} JoinLength(ts: seq<string>, sep: char)
    requires |ts| >= 1
    ensures |Join(ts, sep)| >= |ts[0]| + |ts| - 1
  {
    if |ts| > 1 {
      JoinLength(ts[1..], sep);
    }
  }
}
