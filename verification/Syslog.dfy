/** The RFC 5424 frame of alerts/siem.py:238-260 and a reader of frames. */
module Syslog {
  import opened Basics
  import opened Correlator

  // ------------------------------------------------------------------- numerals

  function Digit(n: nat): char
    requires n < 10
  {
    '0' + n as char
  }

  function Decimal(n: nat): string {
    if n < 10 then [Digit(n)] else Decimal(n / 10) + [Digit(n % 10)]
  }

  /** The number a numeral stands for, None for anything that is not one. */
  function Numeral(s: string): Option<nat>
    decreases |s|
  {
    if s == "" then Some(0)
    else
      var c, front := s[|s| - 1], Numeral(s[..|s| - 1]);
      if front.None? || c < '0' || c > '9' then None
      else Some(front.value * 10 + (c - '0') as nat)
  }

  lemma {:induction false} NumeralUndoesDecimal(n: nat)
    ensures Numeral(Decimal(n)) == Some(n)
    ensures forall c :: c in Decimal(n) ==> '0' <= c <= '9'
  {
    if n < 10 {
      assert [Digit(n)][..0] == "";
    } else {
      NumeralUndoesDecimal(n / 10);
      assert Decimal(n)[..|Decimal(n)| - 1] == Decimal(n / 10);
    }
  }

  // --------------------------------------------------------------------- printing

  function Facility(name: string): nat {
    if name == "user" then 1
    else if name == "daemon" then 3
    else if name == "local1" then 17
    else if name == "local2" then 18
    else if name == "local3" then 19
    else if name == "local4" then 20
    else if name == "local5" then 21
    else if name == "local6" then 22
    else if name == "local7" then 23
    else 16
  }

  function SyslogSeverity(s: Severity): nat {
    match s case Info => 6 case Low => 5 case Medium => 4 case High => 3 case Critical => 2
  }

  datatype Frame = Frame(facility: nat, severity: nat, timestamp: string, hostname: string, appName: string,
                         procid: string, payload: string)

  /** The text of a frame; the message id and the structured data are always `-`. */
  function Print(f: Frame): string {
    "<" + Decimal(f.facility * 8 + f.severity) + ">1 " + f.timestamp + " " + f.hostname + " " + f.appName + " "
      + f.procid
    + " - - " + f.payload
  }

  function FrameOf(payload: string, severity: Severity, timestamp: string, hostname: string, appName: string,
                   facility: string, procid: string): Frame {
    Frame(Facility(facility), SyslogSeverity(severity), timestamp, if hostname != "" then hostname else "-", appName,
      procid, payload)
  }

  /** `format_syslog`. */
  function FormatSyslog(payload: string, severity: Severity, timestamp: string, hostname: string, appName: string,
                        facility: string, procid: string): string {
    Print(FrameOf(payload, severity, timestamp, hostname, appName, facility, procid))
  }

  // ---------------------------------------------------------------------- reading

  /** What stands before the first `c`, and what follows it. */
  function Cut(s: string, c: char): Option<(string, string)> {
    if s == "" then None
    else if s[0] == c then Some(("", s[1..]))
    else match Cut(s[1..], c)
         case None => None
         case Some(r) => Some(([s[0]] + r.0, r.1))
  }

  /** Reads `n` words, each ended by one space. */
  function Words(s: string, n: nat): Option<(seq<string>, string)>
    decreases n
  {
    if n == 0 then Some(([], s))
    else match Cut(s, ' ')
         case None => None
         case Some(first) =>
           match Words(first.1, n - 1)
           case None => None
           case Some(rest) => Some(([first.0] + rest.0, rest.1))
  }

  function Read(s: string): Option<Frame> {
    if s == "" || s[0] != '<' then None
    else match Cut(s[1..], '>')
         case None => None
         case Some(head) =>
           var pri, words := Numeral(head.0), Words(head.1, 7);
           if pri.None? || words.None? || words.value.0[0] != "1" then None
           else Some(Frame(pri.value / 8, pri.value % 8, words.value.0[1], words.value.0[2], words.value.0[3],
                           words.value.0[4], words.value.1))
  }

  // ---------------------------------------------------------- printing then reading

  lemma {:induction false} CutAt(a: string, c: char, b: string)
    requires c !in a
    ensures Cut(a + [c] + b, c) == Some((a, b))
  {
    var s := a + [c] + b;
    if a == "" {
      assert s[1..] == b;
    } else {
      assert s[1..] == a[1..] + [c] + b;
      CutAt(a[1..], c, b);
      assert a == [a[0]] + a[1..];
    }
  }

  function Spaced(words: seq<string>): string {
    if words == [] then "" else words[0] + " " + Spaced(words[1..])
  }

  lemma {:induction false} WordsUndoesSpaced(words: seq<string>, rest: string)
    requires forall i :: 0 <= i < |words| ==> ' ' !in words[i]
    ensures Words(Spaced(words) + rest, |words|) == Some((words, rest))
  {
    if words == [] {
      assert Spaced(words) + rest == rest;
    } else {
      var tail := Spaced(words[1..]) + rest;
      assert Spaced(words) + rest == words[0] + [' '] + tail;
      CutAt(words[0], ' ', tail);
      WordsUndoesSpaced(words[1..], rest);
      assert words == [words[0]] + words[1..];
    }
  }

  lemma {:induction false} WordsHaveNoSpaces(s: string, n: nat)
    ensures var r := Words(s, n);
            r.Some? ==> |r.value.0| == n && forall i :: 0 <= i < n ==> ' ' !in r.value.0[i]
    decreases n
  {
    if n > 0 {
      var first := Cut(s, ' ');
      if first.Some? {
        CutStopsAtFirst(s, ' ');
        WordsHaveNoSpaces(first.value.1, n - 1);
      }
    }
  }

  lemma {:induction false} CutStopsAtFirst(s: string, c: char)
    ensures Cut(s, c).Some? ==> c !in Cut(s, c).value.0
  {
    if s != "" && s[0] != c {
      CutStopsAtFirst(s[1..], c);
    }
  }

  /** The fields that end at a space hold none. */
  predicate WellFormed(f: Frame) {
    ' ' !in f.timestamp && ' ' !in f.hostname && ' ' !in f.appName && ' ' !in f.procid
  }

  function WordsOf(f: Frame): seq<string> { ["1", f.timestamp, f.hostname, f.appName, f.procid, "-", "-"] }

  /** What the reader makes of the words after the PRI. */
  function FromWords(pri: nat, words: Option<(seq<string>, string)>): Option<Frame>
    requires words.Some? ==> |words.value.0| == 7
  {
    if words.None? || words.value.0[0] != "1" then None
    else Some(Frame(pri / 8, pri % 8, words.value.0[1], words.value.0[2], words.value.0[3], words.value.0[4],
      words.value.1))
  }

  lemma ReadSeesPri(pri: nat, body: string)
    ensures Words(body, 7).Some? ==> |Words(body, 7).value.0| == 7
    ensures Read("<" + Decimal(pri) + ">" + body) == FromWords(pri, Words(body, 7))
  {
    NumeralUndoesDecimal(pri);
    WordsHaveNoSpaces(body, 7);
    hide Words, Numeral, Decimal;
    var rest := Decimal(pri) + ['>'] + body;
    assert "<" + Decimal(pri) + ">" + body == "<" + rest;
    CutAt(Decimal(pri), '>', body);
  }

  lemma PrintIsWords(f: Frame)
    ensures Print(f) == "<" + Decimal(f.facility * 8 + f.severity) + ">" + (Spaced(WordsOf(f)) + f.payload)
  {
    hide Decimal;
    SpacedWords(f);
    hide Spaced;
    var pri := Decimal(f.facility * 8 + f.severity);
    var tail := f.timestamp + " " + f.hostname + " " + f.appName + " " + f.procid + " - - " + f.payload;
    assert Print(f) == "<" + pri + ">1 " + tail;
    assert "1 " + tail == Spaced(WordsOf(f)) + f.payload;
    assert ">1 " + tail == ">" + ("1 " + tail);
  }

  /** Any payload and any PRI come back from a frame exactly when no field before the payload
      contains a space: the formatter checks nothing. */
  lemma ReadUndoesPrintIff(f: Frame)
    requires f.severity < 8
    ensures Read(Print(f)) == Some(f) <==> WellFormed(f)
  {
    hide Words, Read, Print, Spaced, Decimal;
    var pri, body := f.facility * 8 + f.severity, Spaced(WordsOf(f)) + f.payload;
    PrintIsWords(f);
    ReadSeesPri(pri, body);
    WordsHaveNoSpaces(body, 7);
    if WellFormed(f) {
      WordsUndoesSpaced(WordsOf(f), f.payload);
    }
  }

  lemma SpacedWords(f: Frame)
    ensures Spaced(["1", f.timestamp, f.hostname, f.appName, f.procid, "-", "-"]) + f.payload ==
            "1 " + f.timestamp + " " + f.hostname + " " + f.appName + " " + f.procid + " - - " + f.payload
  {
    var w := ["1", f.timestamp, f.hostname, f.appName, f.procid, "-", "-"];
    assert w[7..] == [];
    assert w[6..] == ["-"] && w[6..][1..] == w[7..];
    assert w[5..][1..] == w[6..] && w[4..][1..] == w[5..] && w[3..][1..] == w[4..];
    assert w[2..][1..] == w[3..] && w[1..][1..] == w[2..];
    assert Spaced(w[6..]) == "- ";
    assert Spaced(w[5..]) == "- - ";
    assert Spaced(w[4..]) == f.procid + " " + Spaced(w[5..]);
    assert Spaced(w[3..]) == f.appName + " " + Spaced(w[4..]);
    assert Spaced(w[2..]) == f.hostname + " " + Spaced(w[3..]);
    assert Spaced(w[1..]) == f.timestamp + " " + Spaced(w[2..]);
    assert Spaced(w) == "1 " + Spaced(w[1..]);
  }

  /** The formatter's frames carry a valid PRI, and from it the facility and the severity. */
  lemma FormatReadsBack(payload: string, severity: Severity, timestamp: string, hostname: string, appName: string,
                        facility: string, procid: string)
    ensures var f := FrameOf(payload, severity, timestamp, hostname, appName, facility, procid);
            && f.facility * 8 + f.severity <= 191
            && (Read(FormatSyslog(payload, severity, timestamp, hostname, appName, facility, procid)) == Some(f) <==>
                  ' ' !in timestamp && ' ' !in hostname && ' ' !in appName && ' ' !in procid)
  {
    hide Print, Read;
    ReadUndoesPrintIff(FrameOf(payload, severity, timestamp, hostname, appName, facility, procid));
  }

  /** The facility codes of section 6.2.1 of RFC 5424 that have a name here. */
  const FACILITIES: map<string, nat> := map[
    "user" := 1, "daemon" := 3, "local0" := 16, "local1" := 17, "local2" := 18, "local3" := 19,
    "local4" := 20, "local5" := 21, "local6" := 22, "local7" := 23]

  /** What a reader of a formatted frame finds: the code of the facility, local0 for an unknown name;
      the level of the severity, from critical to informational; and every field in its place, `-` for
      a missing host. */
  lemma FormatTells(payload: string, severity: Severity, timestamp: string, hostname: string, appName: string,
                    facility: string, procid: string)
    requires ' ' !in timestamp && ' ' !in hostname && ' ' !in appName && ' ' !in procid
    ensures var r := Read(FormatSyslog(payload, severity, timestamp, hostname, appName, facility, procid));
            && r.Some? && r.value.facility == (if facility in FACILITIES then FACILITIES[facility] else 16)
            && r.value.severity == (match severity case Critical => 2 case High => 3 case Medium => 4 case Low => 5
                                    case Info => 6)
            && r.value.timestamp == timestamp && r.value.hostname == (if hostname == "" then "-" else hostname)
            && r.value.appName == appName && r.value.procid == procid && r.value.payload == payload
  {
    FormatReadsBack(payload, severity, timestamp, hostname, appName, facility, procid);
    FacilityIs(facility);
    hide Facility, FormatSyslog, Read;
  }

  lemma FacilityIs(name: string)
    ensures Facility(name) == if name in FACILITIES then FACILITIES[name] else 16
  {
  }
}
