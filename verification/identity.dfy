/** Storage identities: the UUID texts PostgreSQL accepts, and the allocation of identities from names. */
module Identity {
  import opened Wrappers

  /** Sixteen bytes. */
  type Uuid = seq<bv8>

  // ---------------------------------------------------------------- hexadecimal digits

  predicate IsHex(c: char) { '0' <= c <= '9' || 'a' <= c <= 'f' || 'A' <= c <= 'F' }

  function Nibble(c: char): bv8 {
    match c
    case '1' => 1
    case '2' => 2
    case '3' => 3
    case '4' => 4
    case '5' => 5
    case '6' => 6
    case '7' => 7
    case '8' => 8
    case '9' => 9
    case 'a' => 10
    case 'b' => 11
    case 'c' => 12
    case 'd' => 13
    case 'e' => 14
    case 'f' => 15
    case 'A' => 10
    case 'B' => 11
    case 'C' => 12
    case 'D' => 13
    case 'E' => 14
    case 'F' => 15
    case _ => 0
  }

  function Digit(v: bv8, upper: bool): char {
    if v == 0 then '0' else if v == 1 then '1' else if v == 2 then '2' else if v == 3 then '3'
    else if v == 4 then '4' else if v == 5 then '5' else if v == 6 then '6' else if v == 7 then '7'
    else if v == 8 then '8' else if v == 9 then '9'
    else if v == 10 then (if upper then 'A' else 'a') else if v == 11 then (if upper then 'B' else 'b')
    else if v == 12 then (if upper then 'C' else 'c') else if v == 13 then (if upper then 'D' else 'd')
    else if v == 14 then (if upper then 'E' else 'e') else if upper then 'F' else 'f'
  }

  lemma DigitIsHex(v: bv8, upper: bool)
    requires v < 16
    ensures IsHex(Digit(v, upper)) && Nibble(Digit(v, upper)) == v
  {
  }

  /** The values and letters of hexadecimal digits, independent of the tables above. */
  lemma NibbleValue(c: char)
    requires IsHex(c)
    ensures Nibble(c) as int == if c <= '9' then c as int - '0' as int
                                else if c <= 'F' then c as int - 'A' as int + 10 else c as int - 'a' as int + 10
  {
  }

  function Byte(high: char, low: char): bv8 { (Nibble(high) << 4) | Nibble(low) }

  lemma ByteOfDigits(b: bv8, upperHigh: bool, upperLow: bool)
    ensures Byte(Digit(b >> 4, upperHigh), Digit(b & 15, upperLow)) == b
    ensures IsHex(Digit(b >> 4, upperHigh)) && IsHex(Digit(b & 15, upperLow))
  {
    DigitIsHex(b >> 4, upperHigh);
    DigitIsHex(b & 15, upperLow);
    assert ((b >> 4) << 4) | (b & 15) == b;
  }

  // ---------------------------------------------------------------- the parser

  /** The text up to the first hyphen. */
  function Head(s: string): (h: string)
    ensures |h| <= |s| && h == s[..|h|] && '-' !in h && (|h| < |s| ==> s[|h|] == '-')
  {
    if s == [] || s[0] == '-' then [] else [s[0]] + Head(s[1..])
  }

  function Split(s: string): (parts: seq<string>)
    ensures parts != []
    decreases |s|
  {
    var head := Head(s);
    if |head| == |s| then [head] else [head] + Split(s[|head| + 1..])
  }

  predicate IsPart(part: string) { part != [] && |part| % 4 == 0 && forall c | c in part :: IsHex(c) }

  function Compact(s: string): (t: string)
    ensures |t| <= |s|
  {
    if s == [] then [] else (if s[0] == '-' then [] else [s[0]]) + Compact(s[1..])
  }

  function FromHex(digits: string): (u: Uuid)
    requires |digits| % 2 == 0
    ensures |u| == |digits| / 2
  {
    if digits == [] then [] else [Byte(digits[0], digits[1])] + FromHex(digits[2..])
  }

  /** Without a matching pair of braces there is nothing to parse. */
  function Unbraced(s: string): Option<string> {
    if s == [] || s[0] != '{' then Some(s)
    else if s[|s| - 1] == '}' && |s| > 1 then Some(s[1..|s| - 1])
    else None
  }

  function Parse(s: string): Option<Uuid> {
    var inner := Unbraced(s);
    if inner.None? || (exists part :: part in Split(inner.value) && !IsPart(part)) then None
    else
      var compact := Compact(inner.value);
      if |compact| == 32 then Some(FromHex(compact)) else None
  }

  // ---------------------------------------------------------------- the grammar

  predicate IsGroup(g: string) { |g| == 4 && forall c | c in g :: IsHex(c) }

  /** Groups one after the other, with a hyphen after the ones that are marked. */
  function Render(groups: seq<string>, hyphens: seq<bool>): string
    requires |groups| == |hyphens| + 1
    decreases |groups|
  {
    if |groups| == 1 then groups[0]
    else groups[0] + (if hyphens[0] then "-" else "") + Render(groups[1..], hyphens[1..])
  }

  function Braced(s: string, braces: bool): string { if braces then "{" + s + "}" else s }

  function Flatten(groups: seq<string>): string {
    if groups == [] then [] else groups[0] + Flatten(groups[1..])
  }

  /** `n` groups of four digits, each but the last followed by at most one hyphen. */
  predicate Grouped(s: string, n: nat)
    decreases n
  {
    n >= 1 && |s| >= 4 && IsGroup(s[..4])
    && if n == 1 then |s| == 4
       else |s| > 4 && if s[4] == '-' then Grouped(s[5..], n - 1) else Grouped(s[4..], n - 1)
  }

  ghost predicate AllParts(s: string) { forall part | part in Split(s) :: IsPart(part) }

  lemma {:induction false} HeadPrefix(p: string, t: string)
    requires '-' !in p
    ensures Head(p + t) == p + Head(t)
    decreases p
  {
    if p == [] {
      assert p + t == t;
    } else {
      var rest := p[1..];
      assert (p + t)[0] == p[0] && (p + t)[1..] == rest + t;
      HeadPrefix(rest, t);
      var h := Head(t);
      assert Head(p + t) == [p[0]] + (rest + h);
      assert [p[0]] + (rest + h) == ([p[0]] + rest) + h && [p[0]] + rest == p;
    }
  }

  /** Text without a hyphen belongs to the first part. */
  lemma SplitPrefix(p: string, t: string)
    requires '-' !in p
    ensures Split(p + t) == [p + Split(t)[0]] + Split(t)[1..]
  {
    HeadPrefix(p, t);
    var h := Head(t);
    hide Head;
    if |h| == |t| {
      assert Split(t) == [h] && Split(p + t) == [p + h];
    } else {
      var rest := t[|h| + 1..];
      assert (p + t)[|p + h| + 1..] == rest;
      assert Split(t) == [h] + Split(rest) && Split(p + t) == [p + h] + Split(rest);
    }
  }

  lemma SplitHyphen(r: string)
    ensures Split("-" + r) == [[]] + Split(r)
  {
    assert ("-" + r)[1..] == r;
  }

  lemma {:induction false} CompactAppend(p: string, t: string)
    ensures Compact(p + t) == Compact(p) + Compact(t)
    decreases p
  {
    if p == [] {
      assert p + t == t;
    } else {
      var first := if p[0] == '-' then [] else [p[0]];
      assert (p + t)[0] == p[0] && (p + t)[1..] == p[1..] + t;
      CompactAppend(p[1..], t);
      var (c, d) := (Compact(p[1..]), Compact(t));
      assert Compact(p + t) == first + Compact(p[1..] + t);
      assert Compact(p) == first + c;
      assert first + (c + d) == (first + c) + d;
    }
  }

  lemma {:induction false} CompactOfDigits(p: string)
    requires '-' !in p
    ensures Compact(p) == p
  {
    if p != [] {
      CompactOfDigits(p[1..]);
    }
  }

  lemma GroupHasNoHyphen(g: string)
    requires IsGroup(g)
    ensures '-' !in g && IsPart(g)
  {
  }

  /** How one group stands at the front of a text that is made of parts. */
  lemma GroupInFront(s: string)
    requires |s| >= 4 && IsGroup(s[..4])
    ensures Compact(s) == s[..4] + Compact(s[4..])
    ensures |s| > 4 && s[4] == '-' ==> Split(s) == [s[..4]] + Split(s[5..]) && Compact(s[4..]) == Compact(s[5..])
    ensures |s| == 4 ==> Split(s) == [s]
    ensures |s| > 4 && s[4] != '-' ==> Split(s) == [s[..4] + Split(s[4..])[0]] + Split(s[4..])[1..]
  {
    var (g, t) := (s[..4], s[4..]);
    GroupHasNoHyphen(g);
    hide IsPart, IsHex;
    assert Split([]) == [[]];
    hide Split, Compact;
    SplitPrefix(g, t);
    CompactAppend(g, t);
    CompactOfDigits(g);
    assert s == g + t && g + [] == g;
    if t == [] {
      assert Split(t)[1..] == [];
    } else if t[0] == '-' {
      assert t == "-" + s[5..];
      SplitHyphen(s[5..]);
      CompactHyphen(s[5..]);
    }
  }

  lemma CompactHyphen(r: string)
    ensures Compact("-" + r) == Compact(r)
  {
    assert ("-" + r)[1..] == r;
  }

  /** Parts are never empty, so a text made of them has at least one group, in front. */
  lemma PartsBeginWithAGroup(s: string)
    requires AllParts(s)
    ensures |s| >= 4 && IsGroup(s[..4])
    ensures |Compact(s)| >= 4
  {
    var first := Split(s)[0];
    assert IsPart(first) && first == Head(s);
    assert |first| >= 4;
    assert s[..4] == first[..4];
    assert forall c | c in first[..4] :: c in first;
    GroupInFront(s);
  }

  /** A group put in front of the first part makes a part. */
  lemma LongerPart(g: string, rest: seq<string>)
    requires IsGroup(g) && rest != [] && forall part | part in rest :: IsPart(part)
    ensures forall part | part in [g + rest[0]] + rest[1..] :: IsPart(part)
  {
    assert IsPart(rest[0]);
    assert IsPart(g + rest[0]);
    assert forall part | part in rest[1..] :: part in rest;
  }

  lemma OneGroupIsParts(s: string)
    requires |s| == 4 && IsGroup(s[..4])
    ensures AllParts(s) && |Compact(s)| == 4
  {
    assert s[..4] == s && s[4..] == [];
    GroupHasNoHyphen(s);
    GroupInFront(s);
    CompactOfDigits(s);
  }

  lemma {:induction false} GroupedIsParts(s: string, n: nat)
    requires Grouped(s, n)
    ensures AllParts(s) && |Compact(s)| == 4 * n
    decreases n
  {
    hide Split, Compact, IsPart, IsGroup;
    if n == 1 {
      OneGroupIsParts(s);
    } else {
      GroupHasNoHyphen(s[..4]);
      GroupInFront(s);
      if s[4] == '-' {
        GroupedIsParts(s[5..], n - 1);
      } else {
        GroupedIsParts(s[4..], n - 1);
        LongerPart(s[..4], Split(s[4..]));
      }
    }
  }

  lemma {:induction false} PartsAreGrouped(s: string, n: nat)
    requires AllParts(s) && |Compact(s)| == 4 * n
    ensures Grouped(s, n)
    decreases n
  {
    hide Split, Compact, IsPart, IsGroup;
    PartsBeginWithAGroup(s);
    GroupInFront(s);
    if |s| == 4 {
      assert s[4..] == [];
      CompactOfDigits([]);
    } else if s[4] == '-' {
      assert forall part | part in Split(s[5..]) :: part in Split(s);
      PartsBeginWithAGroup(s[5..]);
      PartsAreGrouped(s[5..], n - 1);
    } else {
      RestIsParts(s);
      PartsBeginWithAGroup(s[4..]);
      PartsAreGrouped(s[4..], n - 1);
    }
  }

  lemma RestIsParts(s: string)
    requires AllParts(s) && |s| > 4 && IsGroup(s[..4]) && s[4] != '-'
    ensures AllParts(s[4..])
  {
    GroupInFront(s);
    var (g, rest) := (s[..4], Split(s[4..]));
    assert IsPart(Split(s)[0]) && Split(s)[0] == g + rest[0];
    assert rest[0] == Head(s[4..]) && rest[0] != [];
    assert forall c | c in rest[0] :: c in g + rest[0];
    assert |g + rest[0]| == 4 + |rest[0]|;
    forall part | part in rest ensures IsPart(part) {
      if part != rest[0] {
        assert part in rest[1..];
        assert part in Split(s);
      }
    }
  }

  // ---------------------------------------------------------------- renderings

  ghost predicate AreGroups(groups: seq<string>) { forall g | g in groups :: IsGroup(g) }

  /** A rendering of several groups, taken apart at its first group. */
  lemma RenderInFront(groups: seq<string>, hyphens: seq<bool>)
    requires |groups| == |hyphens| + 1 && |groups| > 1 && AreGroups(groups)
    requires var rest := Render(groups[1..], hyphens[1..]); |rest| >= 4 && IsGroup(rest[..4])
    ensures var (s, rest) := (Render(groups, hyphens), Render(groups[1..], hyphens[1..]));
            && |s| > 4 && s[..4] == groups[0] && IsGroup(s[..4])
            && (if hyphens[0] then s[4] == '-' && s[5..] == rest else s[4] != '-' && s[4..] == rest)
  {
    assert groups[0] in groups;
    var rest := Render(groups[1..], hyphens[1..]);
    assert rest[0] in rest[..4];
  }

  lemma {:induction false} RenderIsGrouped(groups: seq<string>, hyphens: seq<bool>)
    requires |groups| == |hyphens| + 1 && AreGroups(groups)
    ensures Grouped(Render(groups, hyphens), |groups|)
    ensures Compact(Render(groups, hyphens)) == Flatten(groups)
    decreases |groups|
  {
    hide IsGroup, Compact;
    var s := Render(groups, hyphens);
    assert groups[0] in groups;
    if |groups| == 1 {
      OneGroup(groups[0]);
    } else {
      assert forall g | g in groups[1..] :: g in groups;
      RenderIsGrouped(groups[1..], hyphens[1..]);
      RenderInFront(groups, hyphens);
      hide Render, AreGroups;
      GroupInFront(s);
    }
  }

  lemma OneGroup(g: string)
    requires IsGroup(g)
    ensures Grouped(g, 1) && Compact(g) == Flatten([g])
  {
    assert g[..4] == g;
    GroupHasNoHyphen(g);
    CompactOfDigits(g);
    assert Flatten([g]) == g + Flatten([g][1..]);
  }

  lemma {:induction false} GroupedIsRender(s: string, n: nat) returns (groups: seq<string>, hyphens: seq<bool>)
    requires Grouped(s, n)
    ensures |groups| == n == |hyphens| + 1 && AreGroups(groups) && s == Render(groups, hyphens)
    decreases n
  {
    if n == 1 {
      groups, hyphens := [s], [];
      assert s[..4] == s;
    } else {
      var hyphen := s[4] == '-';
      var rest := if hyphen then s[5..] else s[4..];
      var gs, hs := GroupedIsRender(rest, n - 1);
      groups, hyphens := [s[..4]] + gs, [hyphen] + hs;
      assert groups[1..] == gs && hyphens[1..] == hs;
      assert s == s[..4] + (if hyphen then "-" else "") + rest;
    }
  }

  ghost predicate IsRendering(s: string, groups: seq<string>, hyphens: seq<bool>, braces: bool) {
    |groups| == 8 && |hyphens| == 7 && AreGroups(groups) && s == Braced(Render(groups, hyphens), braces)
  }

  lemma UnbracedInverts(s: string, braces: bool)
    requires s != [] && s[0] != '{'
    ensures Unbraced(Braced(s, braces)) == Some(s)
  {
    if braces {
      var t := Braced(s, true);
      assert t[|t| - 1] == '}' && t[1..|t| - 1] == s;
    }
  }

  /** Whatever is rendered is parsed to its digits. */
  lemma ParseRendering(s: string, groups: seq<string>, hyphens: seq<bool>, braces: bool)
    requires IsRendering(s, groups, hyphens, braces)
    ensures |Flatten(groups)| == 32 && Parse(s) == Some(FromHex(Flatten(groups)))
  {
    var r := Render(groups, hyphens);
    RenderIsGrouped(groups, hyphens);
    GroupedIsParts(r, 8);
    assert r[0] in r[..4] && IsGroup(r[..4]);
    UnbracedInverts(r, braces);
  }

  /** The parser accepts exactly eight groups of four hexadecimal digits, with at most one hyphen between
  groups and optional braces that match. */
  lemma ParseAcceptsTheGrammar(s: string)
    ensures Parse(s).Some? <==> exists groups, hyphens, braces :: IsRendering(s, groups, hyphens, braces)
  {
    if Parse(s).Some? {
      var inner := Unbraced(s).value;
      PartsAreGrouped(inner, 8);
      var groups, hyphens := GroupedIsRender(inner, 8);
      var braces := s[0] == '{';
      assert braces ==> s == "{" + inner + "}";
      assert IsRendering(s, groups, hyphens, braces);
    }
    if groups, hyphens, braces :| IsRendering(s, groups, hyphens, braces) {
      ParseRendering(s, groups, hyphens, braces);
    }
  }

  // ---------------------------------------------------------------- round trips

  /** The digits of some bytes, each in the case asked for. */
  function Digits(u: seq<bv8>, upper: seq<bool>): (digits: string)
    requires |upper| == 2 * |u|
    ensures |digits| == 2 * |u|
  {
    if u == [] then [] else [Digit(u[0] >> 4, upper[0]), Digit(u[0] & 15, upper[1])] + Digits(u[1..], upper[2..])
  }

  function Groups(digits: string): (groups: seq<string>)
    requires |digits| % 4 == 0
    ensures |groups| == |digits| / 4
    decreases |digits|
  {
    if digits == [] then [] else [digits[..4]] + Groups(digits[4..])
  }

  lemma {:induction false} GroupsFlatten(digits: string)
    requires |digits| % 4 == 0 && forall c | c in digits :: IsHex(c)
    ensures AreGroups(Groups(digits)) && Flatten(Groups(digits)) == digits
    decreases |digits|
  {
    if digits != [] {
      assert forall c | c in digits[..4] :: c in digits;
      assert forall c | c in digits[4..] :: c in digits;
      GroupsFlatten(digits[4..]);
      assert Groups(digits)[1..] == Groups(digits[4..]);
      assert digits == digits[..4] + digits[4..];
    }
  }

  lemma {:induction false} DigitsAreTheBytes(u: seq<bv8>, upper: seq<bool>)
    requires |upper| == 2 * |u|
    ensures FromHex(Digits(u, upper)) == u
    ensures forall c | c in Digits(u, upper) :: IsHex(c)
    decreases |u|
  {
    if u != [] {
      ByteOfDigits(u[0], upper[0], upper[1]);
      DigitsAreTheBytes(u[1..], upper[2..]);
      hide Digit, Byte;
      var (d, rest) := (Digits(u, upper), Digits(u[1..], upper[2..]));
      assert d[2..] == rest;
      assert u == [u[0]] + u[1..];
    }
  }

  /** Some way to write an identity: any mixture of cases, hyphens wherever they may stand, braces or none. */
  function Format(u: Uuid, upper: seq<bool>, hyphens: seq<bool>, braces: bool): string
    requires |u| == 16 && |upper| == 32 && |hyphens| == 7
  {
    Braced(Render(Groups(Digits(u, upper)), hyphens), braces)
  }

  /** Parsing undoes every such rendering. */
  lemma ParseInvertsFormat(u: Uuid, upper: seq<bool>, hyphens: seq<bool>, braces: bool)
    requires |u| == 16 && |upper| == 32 && |hyphens| == 7
    ensures Parse(Format(u, upper, hyphens, braces)) == Some(u)
  {
    DigitsAreTheBytes(u, upper);
    GroupsFlatten(Digits(u, upper));
    ParseRendering(Format(u, upper, hyphens, braces), Groups(Digits(u, upper)), hyphens, braces);
  }

  // ---------------------------------------------------------------- allocation

  datatype Entity =
    | Members | MemberAliases | Accounts | Sessions | Responses | HeldEvents | GameTitles | MapMasters | SeasonMasters
    | IncidentMasters | Matches | MatchDrafts | SourceImages | OcrJobs | OcrDrafts | OcrSubmissions | AnalysisOperations
    | AnalysisCampaigns | AnalysisRequests | AnalysisJobs | AnalysisAttempts | AnalysisArtifacts | RadarBases
    | RadarCandidates | RadarOperations | RadarPreviews

  function Namespace(e: Entity): string {
    match e
    case Members => "members"
    case MemberAliases => "member_aliases"
    case Accounts => "momo_login_accounts"
    case Sessions => "sessions"
    case Responses => "responses"
    case HeldEvents => "held_events"
    case GameTitles => "game_titles"
    case MapMasters => "map_masters"
    case SeasonMasters => "season_masters"
    case IncidentMasters => "incident_masters"
    case Matches => "matches"
    case MatchDrafts => "match_drafts"
    case SourceImages => "source_images"
    case OcrJobs => "ocr_jobs"
    case OcrDrafts => "ocr_drafts"
    case OcrSubmissions => "ocr_submissions"
    case AnalysisOperations => "series_analysis_operation_requests"
    case AnalysisCampaigns => "series_analysis_campaigns"
    case AnalysisRequests => "series_analysis_job_requests"
    case AnalysisJobs => "series_analysis_jobs"
    case AnalysisAttempts => "series_analysis_job_attempts"
    case AnalysisArtifacts => "series_analysis_artifacts"
    case RadarBases => "series_radar_bases"
    case RadarCandidates => "series_radar_candidates"
    case RadarOperations => "series_radar_operations"
    case RadarPreviews => "series_radar_previews"
  }

  /** What is hashed behind the fixed namespace identifier. */
  function Preimage(e: Entity, legacy: string): string { Namespace(e) + "\0" + legacy }

  /** The hash, of any length; only its first sixteen bytes are used. */
  type Digest = string -> seq<bv8>

  /** The sixteen bytes copied from a hash; missing ones stay zero. */
  function FirstSixteen(hash: seq<bv8>): (bytes: seq<bv8>)
    ensures |bytes| == 16
    ensures forall i | 0 <= i < 16 && i < |hash| :: bytes[i] == hash[i]
  {
    if |hash| >= 16 then hash[..16] else hash + Zeros(16 - |hash|)
  }

  function Zeros(n: nat): (z: seq<bv8>)
    ensures |z| == n
  {
    if n == 0 then [] else [0] + Zeros(n - 1)
  }

  function Marked(bytes: seq<bv8>): Uuid
    requires |bytes| == 16
  {
    bytes[6 := (bytes[6] & 0x0f) | 0x80][8 := (bytes[8] & 0x3f) | 0x80]
  }

  /** Version 8 and variant 10 in their places, and every other bit as it was. */
  lemma MarkedBits(bytes: seq<bv8>)
    requires |bytes| == 16
    ensures var u := Marked(bytes);
            && |u| == 16
            && u[6] >> 4 == 8 && u[8] >> 6 == 2
            && u[6] & 0x0f == bytes[6] & 0x0f && u[8] & 0x3f == bytes[8] & 0x3f
            && forall i | 0 <= i < 16 && i != 6 && i != 8 :: u[i] == bytes[i]
  {
    MarkedByte(bytes[6], bytes[8]);
  }

  lemma MarkedByte(version: bv8, variant: bv8)
    ensures ((version & 0x0f) | 0x80) >> 4 == 8 && ((version & 0x0f) | 0x80) & 0x0f == version & 0x0f
    ensures ((variant & 0x3f) | 0x80) >> 6 == 2 && ((variant & 0x3f) | 0x80) & 0x3f == variant & 0x3f
  {
  }

  /** `uuid8`, which edits the bytes in place. */
  method Uuid8(hash: seq<bv8>) returns (bytes: array<bv8>)
    ensures fresh(bytes) && bytes.Length == 16
    ensures bytes[..] == Marked(FirstSixteen(hash))
  {
    bytes := new bv8[16](_ => 0);
    var n := if |hash| < 16 then |hash| else 16;
    for i := 0 to n
      invariant forall k | 0 <= k < i :: bytes[k] == hash[k]
      invariant forall k | i <= k < 16 :: bytes[k] == 0
    {
      bytes[i] := hash[i];
    }
    ZerosAreZero(16 - n);
    assert bytes[..] == FirstSixteen(hash);
    bytes[6] := (bytes[6] & 0x0f) | 0x80;
    bytes[8] := (bytes[8] & 0x3f) | 0x80;
  }

  lemma {:induction false} ZerosAreZero(n: nat)
    ensures forall i | 0 <= i < n :: Zeros(n)[i] == 0
  {
    if n > 0 { ZerosAreZero(n - 1); }
  }

  /** `allocate`. */
  function Allocate(hash: Digest, e: Entity, legacy: string): Option<Uuid> {
    if '\0' in legacy then None
    else
      var existing := Parse(legacy);
      if existing.Some? then existing else Some(Marked(FirstSixteen(hash(Preimage(e, legacy)))))
  }

  lemma {:induction false} RenderHasNoNul(groups: seq<string>, hyphens: seq<bool>)
    requires |groups| == |hyphens| + 1 && AreGroups(groups)
    ensures '\0' !in Render(groups, hyphens)
    decreases |groups|
  {
    assert groups[0] in groups && IsGroup(groups[0]);
    assert '\0' !in groups[0];
    if |groups| > 1 {
      assert forall g | g in groups[1..] :: g in groups;
      RenderHasNoNul(groups[1..], hyphens[1..]);
    }
  }

  /** An identity in any of its renderings is allocated to itself, for every entity: allocating the rendering
  of a result changes nothing. */
  lemma AllocateIsIdempotent(hash: Digest, e: Entity, f: Entity, legacy: string, upper: seq<bool>, hyphens: seq<bool>,
      braces: bool)
    requires '\0' !in legacy && |upper| == 32 && |hyphens| == 7
    ensures var u := Allocate(hash, e, legacy);
            && u.Some? && |u.value| == 16
            && Allocate(hash, f, Format(u.value, upper, hyphens, braces)) == u
  {
    ParseHasSixteen(legacy);
    var u := Allocate(hash, e, legacy).value;
    DigitsAreTheBytes(u, upper);
    GroupsFlatten(Digits(u, upper));
    RenderHasNoNul(Groups(Digits(u, upper)), hyphens);
    ParseInvertsFormat(u, upper, hyphens, braces);
  }

  lemma ParseHasSixteen(s: string)
    ensures Parse(s).Some? ==> |Parse(s).value| == 16
  {
  }

  /** Names are rejected exactly for a NUL, kept exactly if they are identities, and otherwise hashed. */
  lemma AllocateCases(hash: Digest, e: Entity, legacy: string)
    ensures Allocate(hash, e, legacy).None? <==> '\0' in legacy
    ensures '\0' !in legacy && (exists groups, hyphens, braces :: IsRendering(legacy, groups, hyphens, braces)) ==>
              forall f :: Allocate(hash, f, legacy) == Parse(legacy)
    ensures '\0' !in legacy && (forall groups, hyphens, braces :: !IsRendering(legacy, groups, hyphens, braces)) ==>
              var u := Allocate(hash, e, legacy).value;
              |u| == 16 && u[6] >> 4 == 8 && u[8] >> 6 == 2
  {
    ParseAcceptsTheGrammar(legacy);
    if '\0' !in legacy && Parse(legacy).None? {
      MarkedBits(FirstSixteen(hash(Preimage(e, legacy))));
    }
  }

  // ---------------------------------------------------------------- distinct names are hashed apart

  lemma {:induction false} SplitAtNul(a: string, x: string, b: string, y: string)
    requires a + "\0" + x == b + "\0" + y && '\0' !in a && '\0' !in b
    ensures a == b && x == y
    decreases a
  {
    var (left, right) := (a + "\0" + x, b + "\0" + y);
    if a == [] {
      assert left[0] == '\0';
      assert b == [];
      assert left[1..] == x && right[1..] == y;
    } else {
      assert left[0] == a[0] && b != [] && b[0] == a[0];
      assert left[1..] == a[1..] + "\0" + x && right[1..] == b[1..] + "\0" + y;
      SplitAtNul(a[1..], x, b[1..], y);
      assert a == [a[0]] + a[1..] && b == [b[0]] + b[1..];
    }
  }

  lemma AnalysisNamespaceHasNoNul(e: Entity)
    requires e.AnalysisOperations? || e.AnalysisCampaigns? || e.AnalysisRequests? || e.AnalysisJobs?
               || e.AnalysisAttempts?
             || e.AnalysisArtifacts? || e.RadarBases? || e.RadarCandidates? || e.RadarOperations? || e.RadarPreviews?
    ensures '\0' !in Namespace(e)
  {
  }

  lemma NamespaceHasNoNul(e: Entity)
    ensures '\0' !in Namespace(e)
  {
    if e.AnalysisOperations? || e.AnalysisCampaigns? || e.AnalysisRequests? || e.AnalysisJobs? || e.AnalysisAttempts?
       || e.AnalysisArtifacts? || e.RadarBases? || e.RadarCandidates? || e.RadarOperations? || e.RadarPreviews? {
      hide Namespace;
      AnalysisNamespaceHasNoNul(e);
    }
  }

  lemma NamespacesAreDistinct(e: Entity, f: Entity)
    requires Namespace(e) == Namespace(f)
    ensures e == f
  {
  }

  /** Two entities, or two names, are never hashed as the same text. */
  lemma PreimagesAreDistinct(e: Entity, x: string, f: Entity, y: string)
    requires Preimage(e, x) == Preimage(f, y)
    ensures e == f && x == y
  {
    NamespaceHasNoNul(e);
    NamespaceHasNoNul(f);
    SplitAtNul(Namespace(e), x, Namespace(f), y);
    NamespacesAreDistinct(e, f);
  }
}
