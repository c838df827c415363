/**
  Front matter of skill and subcommand files (crates/agent_skills/agent_skills.rs)
  over UTF-8 bytes. YAML is a parameter: a function from a slice of the file to
  what deserializing its first document gives.
 */
module FrontMatter {
  import opened Wrappers
  import opened Utf8

  type Bytes = seq<byte>

  const NEWLINE: byte := 0x0A
  const RETURN: byte := 0x0D
  const DASH: byte := 0x2D
  const DASHES: Bytes := [DASH, DASH, DASH]
  const MAX_SKILL_FILE_SIZE: nat := 100 * 1024

  datatype Yaml<M> = NoDocument | Document(metadata: M) | Malformed

  // ---------------------------------------------------------------------------
  // White space
  // ---------------------------------------------------------------------------

  /** The length of the white-space character that `s` begins with, or 0. */
  function SpaceAtStart(s: Bytes): (n: nat)
    ensures n <= |s|
  {
    if |s| >= 1 && (9 <= s[0] <= 13 || s[0] == 32) then 1
    else if |s| >= 2 && s[0] == 0xC2 && (s[1] == 0x85 || s[1] == 0xA0) then 2
    else if |s| >= 3 && IsWideSpace(s[0], s[1], s[2]) then 3
    else 0
  }

  /** U+1680, U+2000 to U+200A, U+2028, U+2029, U+202F, U+205F and U+3000. */
  predicate IsWideSpace(a: byte, b: byte, c: byte) {
    || (a == 0xE1 && b == 0x9A && c == 0x80)
    || (a == 0xE2 && b == 0x80 && (c <= 0x8A || c == 0xA8 || c == 0xA9 || c == 0xAF) && c >= 0x80)
    || (a == 0xE2 && b == 0x81 && c == 0x9F)
    || (a == 0xE3 && b == 0x80 && c == 0x80)
  }

  /** The length of the white-space character that `s` ends with, or 0. */
  function SpaceAtEnd(s: Bytes): (n: nat)
    ensures n <= |s|
  {
    var e := |s|;
    if e >= 1 && (9 <= s[e - 1] <= 13 || s[e - 1] == 32) then 1
    else if e >= 2 && s[e - 2] == 0xC2 && (s[e - 1] == 0x85 || s[e - 1] == 0xA0) then 2
    else if e >= 3 && IsWideSpace(s[e - 3], s[e - 2], s[e - 1]) then 3
    else 0
  }

  /** The characters with the Unicode property White_Space. */
  predicate IsWhite(c: nat) {
    || 9 <= c <= 13 || c == 32 || c == 0x85 || c == 0xA0 || c == 0x1680 || 0x2000 <= c <= 0x200A
    || c == 0x2028 || c == 0x2029 || c == 0x202F || c == 0x205F || c == 0x3000
  }

  predicate EndsWithChar(s: Bytes, c: nat) {
    IsScalar(c) && |Encode(c)| <= |s| && s[|s| - |Encode(c)|..] == Encode(c)
  }

  /** What `SpaceAtStart` and `SpaceAtEnd` look for. */
  predicate IsWhiteBytes(s: Bytes) {
    || (|s| == 1 && (9 <= s[0] <= 13 || s[0] == 32))
    || (|s| == 2 && s[0] == 0xC2 && (s[1] == 0x85 || s[1] == 0xA0))
    || (|s| == 3 && IsWideSpace(s[0], s[1], s[2]))
  }

  lemma WhiteBytes(c: nat)
    requires IsWhite(c)
    ensures IsWhiteBytes(Encode(c))
  {
  }

  /** The character that they spell. */
  function WhiteChar(s: Bytes): (c: nat)
    requires IsWhiteBytes(s)
    ensures IsWhite(c) && Encode(c) == s
  {
    if |s| == 1 then s[0]
    else if |s| == 2 then s[1]
    else if s[0] == 0xE1 then 0x1680
    else if s[0] == 0xE3 then 0x3000
    else if s[1] == 0x81 then 0x205F
    else 0x2000 + (s[2] as int - 0x80)
  }

  lemma SpaceAtStartExactly(s: Bytes, n: nat)
    requires n > 0
    ensures SpaceAtStart(s) == n <==> exists c: nat :: IsWhite(c) && BeginsWith(s, c) && |Encode(c)| == n
  {
    if SpaceAtStart(s) == n {
      assert BeginsWith(s, WhiteChar(s[..n]));
    }
    if c: nat :| IsWhite(c) && BeginsWith(s, c) && |Encode(c)| == n {
      WhiteBytes(c);
    }
  }

  lemma SpaceAtEndIsWhite(s: Bytes)
    requires SpaceAtEnd(s) > 0
    ensures IsWhiteBytes(s[|s| - SpaceAtEnd(s)..])
  {
  }

  lemma WhiteAtEnd(s: Bytes, n: nat, t: Bytes)
    requires n == SpaceAtEnd(s) > 0 && t == s[|s| - n..]
    ensures IsWhiteBytes(t) && EndsWithChar(s, WhiteChar(t)) && |Encode(WhiteChar(t))| == n
  {
    SpaceAtEndIsWhite(s);
  }

  lemma EndsInWhite(s: Bytes, c: nat, n: nat)
    requires IsWhite(c) && EndsWithChar(s, c) && |Encode(c)| == n
    ensures SpaceAtEnd(s) == n
  {
    WhiteBytes(c);
    var front := s[..|s| - n];
    SpaceEnds(front, Encode(c));
    assert s == front + Encode(c);
  }

  lemma SpaceAtEndExactly(s: Bytes, n: nat)
    requires n > 0
    ensures SpaceAtEnd(s) == n <==> exists c: nat :: IsWhite(c) && EndsWithChar(s, c) && |Encode(c)| == n
  {
    if SpaceAtEnd(s) == n {
      WhiteAtEnd(s, n, s[|s| - n..]);
    }
    if c: nat :| IsWhite(c) && EndsWithChar(s, c) && |Encode(c)| == n {
      EndsInWhite(s, c, n);
    }
  }

  lemma SpaceEnds(a: Bytes, b: Bytes)
    requires IsWhiteBytes(b)
    ensures SpaceAtEnd(a + b) == |b|
  {
  }

  /** White space is recognised at the front and at the end by the characters' bytes, and is as long as they are. */
  lemma SpacesExactly(s: Bytes, n: nat)
    requires n > 0
    ensures SpaceAtStart(s) == n <==> exists c: nat :: IsWhite(c) && BeginsWith(s, c) && |Encode(c)| == n
    ensures SpaceAtEnd(s) == n <==> exists c: nat :: IsWhite(c) && EndsWithChar(s, c) && |Encode(c)| == n
  {
    SpaceAtStartExactly(s, n);
    SpaceAtEndExactly(s, n);
  }

  function TrimStart(s: Bytes): (r: Bytes)
    ensures |r| <= |s| && r == s[|s| - |r|..]
    ensures SpaceAtStart(r) == 0
    decreases |s|
  {
    if SpaceAtStart(s) > 0 then TrimStart(s[SpaceAtStart(s)..]) else s
  }

  function TrimEnd(s: Bytes): (r: Bytes)
    ensures r <= s
    ensures SpaceAtEnd(r) == 0
    decreases |s|
  {
    if SpaceAtEnd(s) > 0 then TrimEnd(s[..|s| - SpaceAtEnd(s)]) else s
  }

  function Trim(s: Bytes): Bytes {
    TrimEnd(TrimStart(s))
  }

  // ---------------------------------------------------------------------------
  // Closing delimiters
  // ---------------------------------------------------------------------------

  /** Where a line of just `---` after the line break at `i` ends, if there is one. */
  function CloserAfter(s: Bytes, i: nat): (r: Option<nat>)
    ensures r.Some? ==> i + 4 <= r.value <= |s|
  {
    if i >= |s| || s[i] != NEWLINE || i + 4 > |s| || s[i + 1..i + 4] != DASHES then None
    else
      var after := i + 4;
      if after == |s| then Some(after)
      else if s[after] == NEWLINE then Some(after + 1)
      else if after + 1 < |s| && s[after] == RETURN && s[after + 1] == NEWLINE then Some(after + 2)
      else None
  }

  /** The candidates found before position `n`. */
  function Candidates(s: Bytes, n: nat): seq<nat>
    requires n <= |s|
  {
    if n == 0 then []
    else Candidates(s, n - 1) + if CloserAfter(s, n - 1).Some? then [CloserAfter(s, n - 1).value] else []
  }

  /** The scan for closing delimiters. */
  method FindCandidates(s: Bytes) returns (candidates: seq<nat>)
    ensures candidates == Candidates(s, |s|)
  {
    candidates := [];
    for i := 0 to |s|
      invariant candidates == Candidates(s, i)
    {
      if s[i] != NEWLINE { continue; }
      var lineStart := i + 1;
      if lineStart + 3 > |s| { continue; }
      if s[lineStart..lineStart + 3] != DASHES { continue; }
      var after := lineStart + 3;
      var end;
      if after == |s| {
        end := after;
      } else if s[after] == NEWLINE {
        end := after + 1;
      } else if after + 1 < |s| && s[after] == RETURN && s[after + 1] == NEWLINE {
        end := after + 2;
      } else {
        continue;
      }
      candidates := candidates + [end];
    }
  }

  /** A later line that reads `---` and nothing else, with its line break, ends at `e`. */
  predicate IsCloserEnd(s: Bytes, e: nat) {
    exists start: nat | 1 <= start <= |s| :: IsCloserLine(s, start, e)
  }

  predicate IsCloserLine(s: Bytes, start: nat, e: nat) {
    && 1 <= start && start + 3 <= e <= |s|
    && s[start - 1] == NEWLINE
    && s[start..start + 3] == DASHES
    && (|| (e == start + 3 && e == |s|)
        || s[start + 3..e] == [NEWLINE]
        || s[start + 3..e] == [RETURN, NEWLINE])
  }

  lemma CloserIsLine(s: Bytes, i: nat, e: nat)
    ensures CloserAfter(s, i) == Some(e) <==> IsCloserLine(s, i + 1, e)
  {
  }

  predicate FoundBefore(s: Bytes, n: nat, e: nat) {
    exists k: nat | k < n :: CloserAfter(s, k) == Some(e)
  }

  lemma CandidatesFound(s: Bytes, n: nat, e: nat)
    requires n <= |s|
    ensures e in Candidates(s, n) <==> FoundBefore(s, n, e)
  {
  }

  lemma {:induction false} CandidatesAscend(s: Bytes, n: nat)
    requires n <= |s|
    ensures forall i, j | 0 <= i < j < |Candidates(s, n)| :: Candidates(s, n)[i] < Candidates(s, n)[j]
  {
    if n > 0 {
      CandidatesAscend(s, n - 1);
      var before := Candidates(s, n - 1);
      if CloserAfter(s, n - 1).Some? {
        forall i | 0 <= i < |before| ensures before[i] < CloserAfter(s, n - 1).value {
          CandidatesFound(s, n - 1, before[i]);
          var k: nat :| k < n - 1 && CloserAfter(s, k) == Some(before[i]);
          EarlierCloserEndsEarlier(s, k, n - 1);
        }
      }
    }
  }

  lemma EarlierCloserEndsEarlier(s: Bytes, i: nat, j: nat)
    requires i < j && CloserAfter(s, i).Some? && CloserAfter(s, j).Some?
    ensures CloserAfter(s, i).value < CloserAfter(s, j).value
  {
  }

  /** The scan finds exactly the ends of the later `---` lines, in increasing order, each on a character boundary. */
  lemma CandidatesAreClosers(s: Bytes)
    ensures var c := Candidates(s, |s|);
            && (forall e: nat :: e in c <==> IsCloserEnd(s, e))
            && (forall i, j | 0 <= i < j < |c| :: c[i] < c[j])
            && (ValidUtf8(s) ==> forall e: nat | e in c :: IsBoundary(s, e))
  {
    CandidatesAscend(s, |s|);
    forall e: nat ensures e in Candidates(s, |s|) <==> IsCloserEnd(s, e) {
      CandidatesFound(s, |s|, e);
      if FoundBefore(s, |s|, e) {
        var k: nat :| k < |s| && CloserAfter(s, k) == Some(e);
        CloserIsLine(s, k, e);
      }
      if IsCloserEnd(s, e) {
        var start: nat :| 1 <= start <= |s| && IsCloserLine(s, start, e);
        CloserIsLine(s, start - 1, e);
      }
    }
    if ValidUtf8(s) {
      forall e: nat | e in Candidates(s, |s|) ensures IsBoundary(s, e) {
        CandidatesFound(s, |s|, e);
        var k: nat :| k < |s| && CloserAfter(s, k) == Some(e);
        CloserEndsOnBoundary(s, k);
      }
    }
  }

  lemma CloserEndsOnBoundary(s: Bytes, i: nat)
    requires ValidUtf8(s) && CloserAfter(s, i).Some?
    ensures IsBoundary(s, CloserAfter(s, i).value)
  {
    var e := CloserAfter(s, i).value;
    assert s[i + 1..i + 4][2] == s[i + 3];
    assert s[e - 1] < 0x80;
    BoundaryAfterAscii(s, e - 1);
  }

  // ---------------------------------------------------------------------------
  // Extraction
  // ---------------------------------------------------------------------------

  /** The first candidate from index `i` on whose prefix deserializes. */
  function FirstDocument<M>(s: Bytes, ends: seq<nat>, i: nat, yaml: Bytes -> Yaml<M>): (r: Option<(nat, M)>)
    requires i <= |ends| && forall k | 0 <= k < |ends| :: ends[k] <= |s|
    ensures r.Some? ==> r.value.0 <= |s|
    ensures r.Some? ==> r.value.0 in ends && yaml(s[..r.value.0]) == Document(r.value.1)
    ensures r.Some? ==> exists k :: i <= k < |ends| && ends[k] == r.value.0 &&
                                    forall j | i <= j < k :: !yaml(s[..ends[j]]).Document?
    ensures r.None? ==> forall k | i <= k < |ends| :: !yaml(s[..ends[k]]).Document?
    decreases |ends| - i
  {
    if i == |ends| then None
    else
      var parsed := yaml(s[..ends[i]]);
      if parsed.Document? then Some((ends[i], parsed.metadata)) else FirstDocument(s, ends, i + 1, yaml)
  }

  lemma CandidatesInRange(s: Bytes, n: nat)
    requires n <= |s|
    ensures forall k | 0 <= k < |Candidates(s, n)| :: Candidates(s, n)[k] <= |s|
  {
  }

  function Extract<M>(content: Bytes, yaml: Bytes -> Yaml<M>): Result<(M, Bytes), string> {
    var trimmed := TrimStart(content);
    if !(DASHES <= trimmed) then Err("SKILL.md must start with YAML frontmatter (---)")
    else
      var ends := Candidates(trimmed, |trimmed|);
      if ends == [] then Err("SKILL.md missing closing frontmatter delimiter (---)")
      else
        CandidatesInRange(trimmed, |trimmed|);
        var found := FirstDocument(trimmed, ends, 0, yaml);
        if found.None? then Err("Invalid YAML frontmatter") else Ok((found.value.1, trimmed[found.value.0..]))
  }

  /** `extract_frontmatter_as`: scan, then try each candidate in order. */
  method ExtractFrontMatter<M>(content: Bytes, yaml: Bytes -> Yaml<M>) returns (r: Result<(M, Bytes), string>)
    ensures r == Extract(content, yaml)
  {
    var trimmed := TrimStart(content);
    if !(DASHES <= trimmed) {
      return Err("SKILL.md must start with YAML frontmatter (---)");
    }
    var candidates := FindCandidates(trimmed);
    if candidates == [] {
      return Err("SKILL.md missing closing frontmatter delimiter (---)");
    }
    CandidatesInRange(trimmed, |trimmed|);
    for i := 0 to |candidates|
      invariant FirstDocument(trimmed, candidates, 0, yaml) == FirstDocument(trimmed, candidates, i, yaml)
    {
      match yaml(trimmed[..candidates[i]]) {
        case NoDocument => continue;
        case Document(metadata) => return Ok((metadata, trimmed[candidates[i]..]));
        case Malformed =>
      }
    }
    return Err("Invalid YAML frontmatter");
  }

  /** `e` ends a closing line, what precedes it deserializes to the metadata, and the rest is the body. */
  ghost predicate SplitsAt<M(!new)>(s: Bytes, e: nat, metadata: M, body: Bytes, yaml: Bytes -> Yaml<M>) {
    e <= |s| && IsCloserEnd(s, e) && s[..e] + body == s && yaml(s[..e]) == Document(metadata)
  }

  /** And no earlier closing line does so. */
  ghost predicate SplitsFirst<M(!new)>(s: Bytes, e: nat, metadata: M, body: Bytes, yaml: Bytes -> Yaml<M>) {
    && SplitsAt(s, e, metadata, body, yaml)
    && forall f: nat | f < e && IsCloserEnd(s, f) :: !yaml(s[..f]).Document?
  }

  lemma FoundSplits<M(!new)>(s: Bytes, yaml: Bytes -> Yaml<M>)
    requires forall k | 0 <= k < |Candidates(s, |s|)| :: Candidates(s, |s|)[k] <= |s|
    ensures var found := FirstDocument(s, Candidates(s, |s|), 0, yaml);
            && (found.Some? ==> SplitsFirst(s, found.value.0, found.value.1, s[found.value.0..], yaml))
            && (found.None? ==> forall e: nat | e <= |s| && IsCloserEnd(s, e) :: !yaml(s[..e]).Document?)
  {
    var ends := Candidates(s, |s|);
    var found := FirstDocument(s, ends, 0, yaml);
    CandidatesAreClosers(s);
    if found.Some? {
      var k :| 0 <= k < |ends| && ends[k] == found.value.0 && forall j | 0 <= j < k :: !yaml(s[..ends[j]]).Document?;
      forall f: nat | f < ends[k] && IsCloserEnd(s, f) ensures !yaml(s[..f]).Document? {
        assert f in ends;
        var j :| 0 <= j < |ends| && ends[j] == f;
      }
    } else {
      forall e: nat | e <= |s| && IsCloserEnd(s, e) ensures !yaml(s[..e]).Document? {
        assert e in ends;
      }
    }
  }

  /** What extraction returns splits the trimmed file at a closing line whose prefix is the metadata. */
  lemma ExtractSplits<M(!new)>(content: Bytes, yaml: Bytes -> Yaml<M>)
    requires Extract(content, yaml).Ok?
    ensures var (metadata, body) := Extract(content, yaml).value;
            exists e: nat :: SplitsAt(TrimStart(content), e, metadata, body, yaml)
  {
    var trimmed := TrimStart(content);
    CandidatesInRange(trimmed, |trimmed|);
    FoundSplits(trimmed, yaml);
  }

  lemma SplitsFirstIsFound<M(!new)>(
      s: Bytes, yaml: Bytes -> Yaml<M>, e: nat, metadata: M, body: Bytes, found: Option<(nat, M)>)
    requires SplitsFirst(s, e, metadata, body, yaml)
    requires found.Some? ==>
               found.value.0 <= |s| && SplitsFirst(s, found.value.0, found.value.1, s[found.value.0..], yaml)
    requires found.None? ==> forall f: nat | f <= |s| && IsCloserEnd(s, f) :: !yaml(s[..f]).Document?
    ensures found == Some((e, metadata)) && body == s[e..]
  {
    if found.Some? {
      assert found.value.0 <= e;
      assert e <= found.value.0;
    }
  }

  lemma FoundExactly<M(!new)>(s: Bytes, yaml: Bytes -> Yaml<M>, metadata: M, body: Bytes, found: Option<(nat, M)>)
    requires forall k | 0 <= k < |Candidates(s, |s|)| :: Candidates(s, |s|)[k] <= |s|
    requires found == FirstDocument(s, Candidates(s, |s|), 0, yaml)
    ensures (found.Some? && metadata == found.value.1 && body == s[found.value.0..]) <==>
            exists e: nat :: SplitsFirst(s, e, metadata, body, yaml)
  {
    FoundSplits(s, yaml);
    if e: nat :| SplitsFirst(s, e, metadata, body, yaml) {
      SplitsFirstIsFound(s, yaml, e, metadata, body, found);
    }
  }

  lemma BeginsWithDashes(s: Bytes)
    ensures DASHES <= s <==> |s| >= 3 && s[..3] == [0x2D, 0x2D, 0x2D]
  {
  }

  /** It succeeds exactly for files that begin with a delimiter and have such a line, and takes the first of them. */
  lemma ExtractsExactlyWhen<M(!new)>(content: Bytes, yaml: Bytes -> Yaml<M>, metadata: M, body: Bytes)
    ensures Extract(content, yaml) == Ok((metadata, body)) <==>
            var s := TrimStart(content);
            |s| >= 3 && s[..3] == [0x2D, 0x2D, 0x2D] && exists e: nat :: SplitsFirst(s, e, metadata, body, yaml)
  {
    var s := TrimStart(content);
    CandidatesInRange(s, |s|);
    BeginsWithDashes(s);
    FoundExactly(s, yaml, metadata, body, FirstDocument(s, Candidates(s, |s|), 0, yaml));
  }

  // ---------------------------------------------------------------------------
  // Subcommand files
  // ---------------------------------------------------------------------------

  function SplitSubcommand<M>(content: Bytes, yaml: Bytes -> Yaml<M>, default: M): Result<(M, Bytes), string> {
    if |content| > MAX_SKILL_FILE_SIZE then Err("subcommand file exceeds maximum size")
    else if DASHES <= TrimStart(content) then Extract(content, yaml)
    else Ok((default, content))
  }

  /** `read_skill_subcommand_body_from_content`. */
  function ReadBody<M>(content: Bytes, yaml: Bytes -> Yaml<M>, default: M): Result<Bytes, string> {
    var parts := SplitSubcommand(content, yaml, default);
    if parts.Err? then Err(parts.error) else Ok(Trim(parts.value.1))
  }

  /** A file without front matter is all body; one that is too long is refused. */
  lemma PlainSubcommand<M>(content: Bytes, yaml: Bytes -> Yaml<M>, default: M)
    requires var trimmed := TrimStart(content); |trimmed| < 3 || trimmed[..3] != [0x2D, 0x2D, 0x2D]
    ensures |content| <= 102400 ==>
              && SplitSubcommand(content, yaml, default) == Ok((default, content))
              && ReadBody(content, yaml, default) == Ok(Trim(content))
    ensures |content| > 102400 ==> ReadBody(content, yaml, default).Err?
  {
  }

  function Opening(frontmatter: Bytes): Bytes {
    DASHES + [NEWLINE] + frontmatter
  }

  /** `render_skill_subcommand_file`, given the emitted metadata. */
  function Render(frontmatter: Bytes, body: Bytes): Bytes {
    Opening(frontmatter) + (DASHES + [NEWLINE]) + ([NEWLINE] + Trim(body) + [NEWLINE])
  }

  /** The line of `f` that starts at `j` is just `---`. */
  predicate BareLineAt(f: Bytes, j: nat) {
    && j + 3 < |f| && (j == 0 || f[j - 1] == NEWLINE) && f[j..j + 3] == DASHES
    && (f[j + 3] == NEWLINE || (j + 4 < |f| && f[j + 3] == RETURN && f[j + 4] == NEWLINE))
  }

  /** Metadata as the emitter writes it: whole lines, none of them a delimiter. */
  ghost predicate IsEmitted(f: Bytes) {
    (f == [] || f[|f| - 1] == NEWLINE) && forall j: nat :: !BareLineAt(f, j)
  }

  lemma OpeningBytes(f: Bytes, rest: Bytes, k: nat)
    requires k < |Opening(f)|
    ensures (Opening(f) + rest)[k] == if k < 3 then DASHES[k] else if k == 3 then NEWLINE else f[k - 4]
  {
  }

  lemma CloserStaysInside(f: Bytes, rest: Bytes, i: nat)
    requires (f == [] || f[|f| - 1] == NEWLINE) && i + 1 < |Opening(f)|
    requires CloserAfter(Opening(f) + rest, i).Some?
    ensures i >= 3 && i + 5 <= |Opening(f)|
  {
    var last := |Opening(f)| - 1;
    OpeningBytes(f, rest, i);
    OpeningBytes(f, rest, last);
  }

  lemma CloserIsBareLine(f: Bytes, rest: Bytes, i: nat)
    requires (f == [] || f[|f| - 1] == NEWLINE) && i + 1 < |Opening(f)|
    requires CloserAfter(Opening(f) + rest, i).Some?
    ensures i >= 3 && BareLineAt(f, i - 3)
  {
    var s, j := Opening(f) + rest, i - 3;
    CloserStaysInside(f, rest, i);
    OpeningBytes(f, rest, i);
    OpeningBytes(f, rest, i + 1);
    OpeningBytes(f, rest, i + 2);
    OpeningBytes(f, rest, i + 3);
    OpeningBytes(f, rest, i + 4);
    if s[i + 4] == RETURN {
      assert j + 3 != |f| - 1;
      OpeningBytes(f, rest, i + 5);
    }
  }

  lemma NoEarlierCloser(f: Bytes, rest: Bytes, i: nat)
    requires IsEmitted(f) && i + 1 < |Opening(f)|
    ensures CloserAfter(Opening(f) + rest, i).None?
  {
    if CloserAfter(Opening(f) + rest, i).Some? {
      CloserIsBareLine(f, rest, i);
    }
  }

  lemma NoCandidatesBefore(s: Bytes, n: nat)
    requires n <= |s| && forall i: nat | i < n :: CloserAfter(s, i).None?
    ensures Candidates(s, n) == []
  {
  }

  lemma CandidatesGrow(s: Bytes, a: nat, b: nat)
    requires a <= b <= |s|
    ensures Candidates(s, a) <= Candidates(s, b)
  {
  }

  /** The first closing line of a rendered file is the one after its metadata. */
  lemma FirstCandidate(f: Bytes, rest: Bytes)
    requires IsEmitted(f)
    ensures var s := Opening(f) + (DASHES + [NEWLINE]) + rest;
            var c := Candidates(s, |s|);
            c != [] && c[0] == |Opening(f)| + 4
  {
    var head := Opening(f);
    var tail := DASHES + [NEWLINE] + rest;
    var s := head + tail;
    assert head + (DASHES + [NEWLINE]) + rest == s;
    var k := |head| - 1;
    forall i: nat | i < k ensures CloserAfter(s, i).None? {
      NoEarlierCloser(f, tail, i);
    }
    NoCandidatesBefore(s, k);
    assert head[k] == NEWLINE && s[k] == NEWLINE;
    assert s[k + 1..k + 4] == tail[..3] == DASHES;
    assert s[k + 4] == tail[3] == NEWLINE;
    assert CloserAfter(s, k) == Some(k + 5);
    assert Candidates(s, k + 1) == [k + 5];
    CandidatesGrow(s, k + 1, |s|);
  }

  /** Line breaks around a trimmed body disappear again. */
  lemma TrimPadded(t: Bytes)
    requires SpaceAtStart(t) == 0 && SpaceAtEnd(t) == 0
    ensures Trim([NEWLINE] + t + [NEWLINE]) == t
  {
    var s := [NEWLINE] + t + [NEWLINE];
    var inner := t + [NEWLINE];
    assert SpaceAtStart(s) == 1 && s[1..] == inner;
    if t == [] {
      assert inner == [NEWLINE] && SpaceAtStart(inner) == 1 && inner[1..] == [];
      assert TrimStart(inner) == [];
    } else {
      assert SpaceAtStart(inner) == 0;
      assert TrimStart(s) == inner;
      assert SpaceAtEnd(inner) == 1 && inner[..|inner| - 1] == t;
      assert TrimEnd(inner) == TrimEnd(t);
    }
  }

  lemma RenderedStartsPlain(frontmatter: Bytes, rest: Bytes)
    ensures var s := Opening(frontmatter) + (DASHES + [NEWLINE]) + rest; TrimStart(s) == s && DASHES <= s
  {
    var s := Opening(frontmatter) + (DASHES + [NEWLINE]) + rest;
    assert s[0] == DASH && s[1] == DASH && s[2] == DASH;
  }

  lemma ExtractRendered<M>(frontmatter: Bytes, rest: Bytes, yaml: Bytes -> Yaml<M>)
    requires IsEmitted(frontmatter)
    requires yaml(Opening(frontmatter) + (DASHES + [NEWLINE])).Document?
    ensures var head := Opening(frontmatter) + (DASHES + [NEWLINE]);
            Extract(head + rest, yaml) == Ok((yaml(head).metadata, rest))
  {
    var head := Opening(frontmatter) + (DASHES + [NEWLINE]);
    var s := head + rest;
    RenderedStartsPlain(frontmatter, rest);
    FirstCandidate(frontmatter, rest);
    CandidatesInRange(s, |s|);
    assert s[..|head|] == head && s[|head|..] == rest;
  }

  /** Reading the body of a rendered file gives the trimmed body, for every body, exactly within the size limit. */
  lemma RenderedBodyReadsBack<M>(frontmatter: Bytes, body: Bytes, yaml: Bytes -> Yaml<M>, default: M)
    requires IsEmitted(frontmatter)
    requires yaml(Opening(frontmatter) + (DASHES + [NEWLINE])).Document?
    ensures ReadBody(Render(frontmatter, body), yaml, default) == Ok(Trim(body)) <==>
            |Render(frontmatter, body)| <= MAX_SKILL_FILE_SIZE
  {
    var rest := [NEWLINE] + Trim(body) + [NEWLINE];
    RenderedStartsPlain(frontmatter, rest);
    ExtractRendered(frontmatter, rest, yaml);
    TrimPadded(Trim(body));
  }
}
