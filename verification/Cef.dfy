/** The printers of alerts/siem.py (CEF lines and RFC 5424 frames) beside readers that undo them. */
module Cef {
  import opened Basics
  import opened Correlator

  // ------------------------------------------------------------------- escaping

  /** `s.replace(c, into)` for a one-character pattern. */
  function Replace(s: string, c: char, into: string): string {
    if s == "" then "" else (if s[0] == c then into else s[..1]) + Replace(s[1..], c, into)
  }

  function EscapeHeader(s: string): string {
    Replace(Replace(s, '\\', "\\\\"), '|', "\\|")
  }

  function EscapeExt(s: string): string {
    Replace(Replace(Replace(Replace(s, '\\', "\\\\"), '=', "\\="), '\n', "\\n"), '\r', "\\n")
  }

  function HeaderChar(c: char): string {
    if c == '\\' || c == '|' then ['\\', c] else [c]
  }

  function ExtChar(c: char): string {
    if c == '\\' || c == '=' then ['\\', c] else if c == '\n' || c == '\r' then "\\n" else [c]
  }

  /** Every character spelled on its own. */
  function Spell(s: string, spelling: char -> string): string {
    if s == "" then "" else spelling(s[0]) + Spell(s[1..], spelling)
  }

  lemma {:induction false} ReplaceSplit(a: string, b: string, c: char, into: string)
    ensures Replace(a + b, c, into) == Replace(a, c, into) + Replace(b, c, into)
  {
    if a == "" {
      assert a + b == b;
    } else {
      assert (a + b)[1..] == a[1..] + b;
      ReplaceSplit(a[1..], b, c, into);
    }
  }

  /** The chained whole-string replacements escape character by character. */
  lemma {:induction false} HeaderIsPerCharacter(s: string)
    ensures EscapeHeader(s) == Spell(s, HeaderChar)
  {
    if s != "" {
      assert s == s[..1] + s[1..];
      ReplaceSplit(s[..1], s[1..], '\\', "\\\\");
      ReplaceSplit(Replace(s[..1], '\\', "\\\\"), Replace(s[1..], '\\', "\\\\"), '|', "\\|");
      OneHeaderChar(s[0]);
      HeaderIsPerCharacter(s[1..]);
    }
  }

  lemma OneHeaderChar(c: char)
    ensures EscapeHeader([c]) == HeaderChar(c)
  {
    ReplaceOne(c, '\\', "\\\\");
    if c == '\\' {
      ReplaceTwo('\\', '\\', '|', "\\|");
    } else {
      ReplaceOne(c, '|', "\\|");
    }
  }

  lemma ReplaceOne(c: char, of: char, into: string)
    ensures Replace([c], of, into) == if c == of then into else [c]
  {
    assert [c][1..] == "" && [c][..1] == [c];
  }

  lemma ReplaceTwo(c: char, d: char, of: char, into: string)
    requires c != of && d != of
    ensures Replace([c, d], of, into) == [c, d]
  {
    assert [c, d][1..] == [d] && [c, d][..1] == [c];
    ReplaceOne(d, of, into);
  }

  lemma {:induction false} ExtIsPerCharacter(s: string)
    ensures EscapeExt(s) == Spell(s, ExtChar)
  {
    if s != "" {
      assert s == s[..1] + s[1..];
      var a, b := s[..1], s[1..];
      ReplaceSplit(a, b, '\\', "\\\\");
      var a1, b1 := Replace(a, '\\', "\\\\"), Replace(b, '\\', "\\\\");
      ReplaceSplit(a1, b1, '=', "\\=");
      var a2, b2 := Replace(a1, '=', "\\="), Replace(b1, '=', "\\=");
      ReplaceSplit(a2, b2, '\n', "\\n");
      ReplaceSplit(Replace(a2, '\n', "\\n"), Replace(b2, '\n', "\\n"), '\r', "\\n");
      OneExtChar(s[0]);
      ExtIsPerCharacter(s[1..]);
    }
  }

  lemma OneExtChar(c: char)
    ensures EscapeExt([c]) == ExtChar(c)
  {
    ReplaceOne(c, '\\', "\\\\");
    ReplaceOne(c, '=', "\\=");
    ReplaceOne(c, '\n', "\\n");
    ReplaceOne(c, '\r', "\\n");
    if c == '\\' {
      ReplaceTwo('\\', '\\', '=', "\\=");
      ReplaceTwo('\\', '\\', '\n', "\\n");
      ReplaceTwo('\\', '\\', '\r', "\\n");
    } else if c == '=' {
      ReplaceTwo('\\', '=', '\n', "\\n");
      ReplaceTwo('\\', '=', '\r', "\\n");
    } else if c == '\n' {
      ReplaceTwo('\\', 'n', '\r', "\\n");
    }
  }

  // ------------------------------------------------------------------- printing

  datatype Pair = Pair(key: string, value: string)

  function CategoryName(c: Category): string {
    match c
    case ArpAnomaly => "arp_anomaly"
    case NewDevice => "new_device"
    case PortScan => "port_scan"
    case Beacon => "beacon"
    case ConnectionAnomaly => "connection_anomaly"
    case DnsAnomaly => "dns_anomaly"
    case LateralMovement => "lateral_movement"
    case AuthAnomaly => "auth_anomaly"
    case TrafficSpike => "traffic_spike"
    case ProcessAnomaly => "process_anomaly"
    case ThreatIntel => "threat_intel"
    case Honeypot => "honeypot"
    case IncidentCategory => "incident"
    case SystemCategory => "system"
  }

  function CefSeverity(s: Severity): string {
    match s case Info => "1" case Low => "3" case Medium => "5" case High => "8" case Critical => "10"
  }

  /** The alert as the formatter reads it; time and confidence are already text. */
  datatype Report = Report(category: Category, severity: Severity, title: string, id: string, time: string,
                           affectedHost: string, affectedMac: string, relatedHost: string, description: string,
                           confidence: string, recommendedAction: string)

  /** Source address, source MAC and destination address, the actor as the source. */
  function SourceDest(r: Report): (string, string, string) {
    if (r.category.PortScan? || r.category.LateralMovement?) && r.relatedHost != ""
    then (r.relatedHost, "", r.affectedHost)
    else (r.affectedHost, r.affectedMac, r.relatedHost)
  }

  function HeaderFields(r: Report, version: string): seq<string> {
    ["CEF:0", "SentinelPi", "SentinelPi", version, CategoryName(r.category),
     if r.title != "" then r.title else CategoryName(r.category), CefSeverity(r.severity)]
  }

  function Present(key: string, value: string): seq<Pair> {
    if value != "" then [Pair(key, value)] else []
  }

  function Always(r: Report): seq<Pair> {
    [Pair("externalId", r.id), Pair("rt", r.time), Pair("cat", CategoryName(r.category))]
  }

  function Confidence(r: Report): seq<Pair> {
    [Pair("cn1", r.confidence), Pair("cn1Label", "confidence")]
  }

  function Recommended(action: string): seq<Pair> {
    if action != "" then [Pair("cs1", action), Pair("cs1Label", "recommendedAction")] else []
  }

  function Pairs(r: Report): seq<Pair> {
    var sd := SourceDest(r);
    Always(r) + Present("src", sd.0) + Present("smac", sd.1) + Present("dst", sd.2) + Present("msg", r.description)
    + Confidence(r) + Recommended(r.recommendedAction)
  }

  /** `"|".join(...)` of the escaped fields, with the bar before the extension. */
  function Header(fields: seq<string>): string {
    if fields == [] then "" else EscapeHeader(fields[0]) + "|" + Header(fields[1..])
  }

  /** `" ".join(f"{key}={value}")` with the values escaped. */
  function Extension(pairs: seq<Pair>): string {
    if pairs == [] then ""
    else pairs[0].key + "=" + After(pairs[0].value, pairs[1..])
  }

  /** What follows an equals sign: the value and the rest of the pairs. */
  function After(value: string, rest: seq<Pair>): string
    decreases |rest|
  {
    if rest == [] then EscapeExt(value)
    else EscapeExt(value) + " " + rest[0].key + "=" + After(rest[0].value, rest[1..])
  }

  function Line(fields: seq<string>, pairs: seq<Pair>): string {
    Header(fields) + Extension(pairs)
  }

  /** `format_cef`. */
  method FormatCef(r: Report, version: string) returns (line: string)
    ensures line == Line(HeaderFields(r, version), Pairs(r))
  {
    hide Line, HeaderFields, CategoryName, SourceDest;
    var pairs := [Pair("externalId", r.id), Pair("rt", r.time), Pair("cat", CategoryName(r.category))];
    assert pairs == Always(r);
    var sd := SourceDest(r);
    pairs := AppendPresent(pairs, "src", sd.0);
    pairs := AppendPresent(pairs, "smac", sd.1);
    pairs := AppendPresent(pairs, "dst", sd.2);
    pairs := AppendPresent(pairs, "msg", r.description);
    ghost var before := pairs;
    pairs := pairs + [Pair("cn1", r.confidence)];
    pairs := pairs + [Pair("cn1Label", "confidence")];
    assert pairs == before + Confidence(r);
    if r.recommendedAction != "" {
      pairs := pairs + [Pair("cs1", r.recommendedAction)];
      pairs := pairs + [Pair("cs1Label", "recommendedAction")];
    }
    assert pairs == before + Confidence(r) + Recommended(r.recommendedAction);
    line := Line(HeaderFields(r, version), pairs);
  }

  /** `if value: pairs.append((key, value))`. */
  method AppendPresent(pairs: seq<Pair>, key: string, value: string) returns (r: seq<Pair>)
    ensures r == pairs + Present(key, value)
  {
    r := pairs;
    if value != "" {
      r := r + [Pair(key, value)];
    }
  }

  // -------------------------------------------------------------------- reading

  /** One header field, up to the first bar that is not escaped, and what follows the bar. */
  function ReadField(s: string): Option<(string, string)> {
    if s == "" then None
    else if s[0] == '|' then Some(("", s[1..]))
    else if s[0] == '\\' && |s| == 1 then None
    else
      var width := if s[0] == '\\' then 2 else 1;
      match ReadField(s[width..])
      case None => None
      case Some(r) => Some(([s[width - 1]] + r.0, r.1))
  }

  function ReadFields(s: string, n: nat): Option<(seq<string>, string)>
    decreases n
  {
    if n == 0 then Some(([], s))
    else match ReadField(s)
         case None => None
         case Some(first) =>
           match ReadFields(first.1, n - 1)
           case None => None
           case Some(rest) => Some(([first.0] + rest.0, rest.1))
  }

  /** The pieces between the equals signs that are not escaped. */
  function SplitEquals(s: string): (r: seq<string>)
    ensures |r| >= 1
  {
    if s == "" then [""]
    else if s[0] == '=' then [""] + SplitEquals(s[1..])
    else
      var width := if s[0] == '\\' && |s| >= 2 then 2 else 1;
      var rest := SplitEquals(s[width..]);
      [s[..width] + rest[0]] + rest[1..]
  }

  /** The text before and after the last space. */
  function LastSpace(s: string): (string, string) {
    if s == "" then ("", "")
    else if s[|s| - 1] == ' ' then (s[..|s| - 1], "")
    else var r := LastSpace(s[..|s| - 1]); (r.0, r.1 + [s[|s| - 1]])
  }

  function Unescape(s: string): string {
    if s == "" then ""
    else if s[0] == '\\' && |s| >= 2 then [if s[1] == 'n' then '\n' else s[1]] + Unescape(s[2..])
    else s[..1] + Unescape(s[1..])
  }

  /** A piece holds a value and, unless it is the last, a space and the next key. */
  function ReadPairs(key: string, pieces: seq<string>): seq<Pair>
    decreases |pieces|
  {
    if |pieces| == 0 then []
    else if |pieces| == 1 then [Pair(key, Unescape(pieces[0]))]
    else var r := LastSpace(pieces[0]); [Pair(key, Unescape(r.0))] + ReadPairs(r.1, pieces[1..])
  }

  function ReadExtension(s: string): seq<Pair> {
    var pieces := SplitEquals(s);
    ReadPairs(pieces[0], pieces[1..])
  }

  function ReadCef(s: string): Option<(seq<string>, seq<Pair>)> {
    match ReadFields(s, 7)
    case None => None
    case Some(r) => Some((r.0, ReadExtension(r.1)))
  }

  // ------------------------------------------------------------- printing then reading

  lemma {:induction false} ReadFieldUndoes(field: string, rest: string)
    ensures ReadField(Spell(field, HeaderChar) + "|" + rest) == Some((field, rest))
  {
    var s := Spell(field, HeaderChar) + "|" + rest;
    if field == "" {
      assert s == "|" + rest && s[1..] == rest;
    } else {
      var tail := Spell(field[1..], HeaderChar) + "|" + rest;
      var spelled := HeaderChar(field[0]);
      assert s == spelled + tail;
      assert s[|spelled|..] == tail;
      ReadFieldUndoes(field[1..], rest);
      assert field == [field[0]] + field[1..];
    }
  }

  lemma {:induction false} ReadFieldsUndoes(fields: seq<string>, rest: string)
    ensures ReadFields(Header(fields) + rest, |fields|) == Some((fields, rest))
  {
    hide EscapeHeader, Spell, ReadField;
    if fields == [] {
      assert Header(fields) + rest == rest;
    } else {
      var tail := Header(fields[1..]) + rest;
      HeaderIsPerCharacter(fields[0]);
      assert Header(fields) + rest == Spell(fields[0], HeaderChar) + "|" + tail;
      ReadFieldUndoes(fields[0], tail);
      ReadFieldsUndoes(fields[1..], rest);
      assert fields == [fields[0]] + fields[1..];
    }
  }

  /** Escaped text: no equals sign of its own, no escape left open. */
  predicate Closed(e: string) {
    || e == ""
    || (e[0] == '\\' && |e| >= 2 && Closed(e[2..]))
    || (e[0] != '\\' && e[0] != '=' && Closed(e[1..]))
  }

  lemma {:induction false} ClosedJoin(a: string, b: string)
    requires Closed(a) && Closed(b)
    ensures Closed(a + b)
  {
    if a == "" {
      assert a + b == b;
    } else {
      var width := if a[0] == '\\' then 2 else 1;
      assert (a + b)[width..] == a[width..] + b;
      ClosedJoin(a[width..], b);
    }
  }

  lemma {:induction false} SpelledIsClosed(s: string)
    ensures Closed(Spell(s, ExtChar))
  {
    if s != "" {
      SpelledIsClosed(s[1..]);
      var e := ExtChar(s[0]);
      assert Closed(e) by {
        assert Closed("");
        assert e[|e|..] == "";
      }
      ClosedJoin(e, Spell(s[1..], ExtChar));
    }
  }

  lemma {:induction false} PlainIsClosed(k: string)
    requires '\\' !in k && '=' !in k
    ensures Closed(k)
  {
    if k != "" {
      PlainIsClosed(k[1..]);
    }
  }

  lemma {:induction false} SplitClosed(e: string, rest: string)
    requires Closed(e)
    ensures SplitEquals(e + "=" + rest) == [e] + SplitEquals(rest)
    ensures SplitEquals(e) == [e]
  {
    var s := e + "=" + rest;
    if e == "" {
      assert s == "=" + rest && s[1..] == rest;
    } else {
      var width := if e[0] == '\\' then 2 else 1;
      assert s[width..] == e[width..] + "=" + rest;
      assert s[..width] == e[..width];
      SplitClosed(e[width..], rest);
      assert e == e[..width] + e[width..];
      assert ([e[width..]] + SplitEquals(rest))[1..] == SplitEquals(rest);
    }
  }

  lemma {:induction false} LastSpaceBeforeKey(v: string, k: string)
    requires ' ' !in k
    ensures LastSpace(v + " " + k) == (v, k)
  {
    var s := v + " " + k;
    if k == "" {
      assert s[..|s| - 1] == v;
    } else {
      var shorter := k[..|k| - 1];
      assert s[..|s| - 1] == v + " " + shorter;
      LastSpaceBeforeKey(v, shorter);
      assert k == shorter + [k[|k| - 1]];
    }
  }

  /** A carriage return comes back as a line feed. */
  function ReadBack(s: string): string { Replace(s, '\r', "\n") }

  lemma {:induction false} UnescapeUndoes(s: string)
    ensures Unescape(Spell(s, ExtChar)) == ReadBack(s)
  {
    if s != "" {
      var e, rest := ExtChar(s[0]), Spell(s[1..], ExtChar);
      assert (e + rest)[|e|..] == rest;
      assert (e + rest)[..1] == e[..1];
      UnescapeUndoes(s[1..]);
    }
  }

  predicate PlainKey(k: string) {
    ' ' !in k && '=' !in k && '\\' !in k
  }

  predicate PlainKeys(pairs: seq<Pair>) {
    forall i :: 0 <= i < |pairs| ==> PlainKey(pairs[i].key)
  }

  function AllReadBack(pairs: seq<Pair>): seq<Pair> {
    if pairs == [] then [] else [Pair(pairs[0].key, ReadBack(pairs[0].value))] + AllReadBack(pairs[1..])
  }

  lemma {:induction false} ReadAfterUndoes(key: string, value: string, rest: seq<Pair>)
    requires PlainKeys(rest)
    ensures ReadPairs(key, SplitEquals(After(value, rest))) == [Pair(key, ReadBack(value))] + AllReadBack(rest)
    decreases |rest|
  {
    ExtIsPerCharacter(value);
    SpelledIsClosed(value);
    UnescapeUndoes(value);
    var e := EscapeExt(value);
    if rest == [] {
      SplitClosed(e, "");
    } else {
      var k, tail := rest[0].key, After(rest[0].value, rest[1..]);
      PlainIsClosed(k);
      assert Closed(" ") by { assert Closed(""); }
      ClosedJoin(e, " ");
      ClosedJoin(e + " ", k);
      SplitClosed(e + " " + k, tail);
      LastSpaceBeforeKey(e, k);
      assert ([e + " " + k] + SplitEquals(tail))[1..] == SplitEquals(tail);
      ReadAfterUndoes(k, rest[0].value, rest[1..]);
    }
  }

  /** Any seven header fields and any values under plain keys come back from the line. */
  lemma ReadUndoesLine(fields: seq<string>, pairs: seq<Pair>)
    requires |fields| == 7 && pairs != [] && PlainKeys(pairs)
    ensures ReadCef(Line(fields, pairs)) == Some((fields, AllReadBack(pairs)))
  {
    ReadFieldsUndoes(fields, Extension(pairs));
    var k, tail := pairs[0].key, After(pairs[0].value, pairs[1..]);
    PlainIsClosed(k);
    SplitClosed(k, tail);
    assert ([k] + SplitEquals(tail))[1..] == SplitEquals(tail);
    ReadAfterUndoes(k, pairs[0].value, pairs[1..]);
  }

  /** Every alert's line gives back its seven header fields and all its pairs. */
  lemma CefRoundTrip(r: Report, version: string)
    ensures ReadCef(Line(HeaderFields(r, version), Pairs(r))) == Some((HeaderFields(r, version), AllReadBack(Pairs(r))))
  {
    KeysArePlain(r);
    ReadUndoesLine(HeaderFields(r, version), Pairs(r));
  }

  /** What comes back is exactly what went in unless some value holds a carriage return. */
  lemma {:induction false} ExactIffNoReturns(pairs: seq<Pair>)
    ensures AllReadBack(pairs) == pairs <==> forall i :: 0 <= i < |pairs| ==> '\r' !in pairs[i].value
  {
    if pairs != [] {
      ReadBackIffNoReturn(pairs[0].value);
      ExactIffNoReturns(pairs[1..]);
      assert pairs == [pairs[0]] + pairs[1..];
      assert AllReadBack(pairs)[0].value == ReadBack(pairs[0].value)
        && AllReadBack(pairs)[1..] == AllReadBack(pairs[1..]);
    }
  }

  lemma {:induction false} ReadBackIffNoReturn(s: string)
    ensures |ReadBack(s)| == |s|
    ensures ReadBack(s) == s <==> '\r' !in s
  {
    if s != "" {
      ReadBackIffNoReturn(s[1..]);
      var first := if s[0] == '\r' then "\n" else s[..1];
      assert ReadBack(s) == first + ReadBack(s[1..]);
      assert s == [s[0]] + s[1..] && ReadBack(s)[0] == first[0] && ReadBack(s)[1..] == ReadBack(s[1..]);
    }
  }

  const KEYS := {"externalId", "rt", "cat", "src", "smac", "dst", "msg", "cn1", "cn1Label", "cs1", "cs1Label"}

  lemma KeysArePlain(r: Report)
    ensures PlainKeys(Pairs(r)) && Pairs(r) != []
    ensures forall i :: 0 <= i < |Pairs(r)| ==> !Breaks(Pairs(r)[i].key)
  {
    hide CategoryName, SourceDest;
    assert |Always(r)| == 3;
    forall i | 0 <= i < |Pairs(r)| ensures PlainKey(Pairs(r)[i].key) && !Breaks(Pairs(r)[i].key) {
      PairsHaveKeys(r);
      assert Pairs(r)[i] in Pairs(r);
      KeyIsPlain(Pairs(r)[i].key);
    }
  }

  lemma PairsHaveKeys(r: Report)
    ensures forall p :: p in Pairs(r) ==> p.key in KEYS
  {
    hide CategoryName, SourceDest;
  }

  lemma KeyIsPlain(k: string)
    requires k in KEYS
    ensures PlainKey(k) && !Breaks(k)
  {
  }

  // ---------------------------------------------------------------- one line or more

  predicate Breaks(s: string) { '\n' in s || '\r' in s }

  lemma {:induction false} HeaderCharsBreak(s: string)
    ensures Breaks(Spell(s, HeaderChar)) <==> Breaks(s)
  {
    if s != "" {
      HeaderCharsBreak(s[1..]);
      assert s == [s[0]] + s[1..];
    }
  }

  lemma {:induction false} ExtNeverBreaks(s: string)
    ensures !Breaks(Spell(s, ExtChar))
  {
    if s != "" {
      ExtNeverBreaks(s[1..]);
    }
  }

  lemma {:induction false} HeaderBreaks(fields: seq<string>)
    ensures Breaks(Header(fields)) <==> exists i :: 0 <= i < |fields| && Breaks(fields[i])
  {
    if fields != [] {
      HeaderBreaks(fields[1..]);
      HeaderIsPerCharacter(fields[0]);
      HeaderCharsBreak(fields[0]);
      assert Breaks(Header(fields)) <==> Breaks(fields[0]) || Breaks(Header(fields[1..]));
      if i :| 0 <= i < |fields[1..]| && Breaks(fields[1..][i]) {
        assert Breaks(fields[i + 1]);
      }
      if i :| 1 <= i < |fields| && Breaks(fields[i]) {
        assert Breaks(fields[1..][i - 1]);
      }
    }
  }

  lemma {:induction false} AfterNeverBreaks(value: string, rest: seq<Pair>)
    requires forall i :: 0 <= i < |rest| ==> !Breaks(rest[i].key)
    ensures !Breaks(After(value, rest))
    decreases |rest|
  {
    ExtIsPerCharacter(value);
    ExtNeverBreaks(value);
    if rest != [] {
      AfterNeverBreaks(rest[0].value, rest[1..]);
    }
  }

  /** A CEF record is one line exactly when neither the version nor the title holds a line break:
      values are escaped, header fields are not. */
  lemma OneLineIffHeaderIs(r: Report, version: string)
    ensures var line := Line(HeaderFields(r, version), Pairs(r));
            '\n' in line || '\r' in line <==> '\n' in version + r.title || '\r' in version + r.title
  {
    LineBreaks(r, version);
    hide Line, HeaderFields, Pairs;
  }

  lemma LineBreaks(r: Report, version: string)
    ensures Breaks(Line(HeaderFields(r, version), Pairs(r))) <==> Breaks(version) || Breaks(r.title)
  {
    hide CategoryName, CefSeverity, Pairs, Header, After, Breaks;
    var fields, pairs := HeaderFields(r, version), Pairs(r);
    HeaderBreaks(fields);
    KeysArePlain(r);
    AfterNeverBreaks(pairs[0].value, pairs[1..]);
    NamesNeverBreak(r);
    BreaksJoin(Header(fields), pairs[0].key + "=" + After(pairs[0].value, pairs[1..]));
    BreaksJoin(pairs[0].key, "=");
    BreaksJoin(pairs[0].key + "=", After(pairs[0].value, pairs[1..]));
    assert fields[3] == version;
    assert fields[5] == if r.title != "" then r.title else CategoryName(r.category);
  }

  lemma BreaksJoin(a: string, b: string)
    ensures Breaks(a + b) == (Breaks(a) || Breaks(b))
  {
  }

  lemma NamesNeverBreak(r: Report)
    ensures !Breaks(CategoryName(r.category)) && !Breaks(CefSeverity(r.severity)) && !Breaks("CEF:0")
        && !Breaks("SentinelPi")
    ensures !Breaks("") && !Breaks("=")
  {
    NameNeverBreaks(r.category);
    SeverityNeverBreaks(r.severity);
  }

  lemma NameNeverBreaks(c: Category)
    ensures !Breaks(CategoryName(c))
  {
    match c
    case ArpAnomaly => assert !Breaks("arp_anomaly");
    case NewDevice => assert !Breaks("new_device");
    case PortScan => assert !Breaks("port_scan");
    case Beacon => assert !Breaks("beacon");
    case ConnectionAnomaly => assert !Breaks("connection_anomaly");
    case DnsAnomaly => assert !Breaks("dns_anomaly");
    case LateralMovement => assert !Breaks("lateral_movement");
    case AuthAnomaly => assert !Breaks("auth_anomaly");
    case TrafficSpike => assert !Breaks("traffic_spike");
    case ProcessAnomaly => assert !Breaks("process_anomaly");
    case ThreatIntel => assert !Breaks("threat_intel");
    case Honeypot => assert !Breaks("honeypot");
    case IncidentCategory => assert !Breaks("incident");
    case SystemCategory => assert !Breaks("system");
  }

  lemma SeverityNeverBreaks(s: Severity)
    ensures !Breaks(CefSeverity(s))
  {
  }
}
