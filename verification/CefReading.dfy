/** What a reader of a CEF line finds, field by field (alerts/siem.py:100-125, 197-235). */
module CefReading {
  import opened Basics
  import opened Correlator
  import opened Cef

  /** The value under a key, None if the line has none. */
  function Under(pairs: seq<Pair>, key: string): Option<string> {
    if pairs == [] then None
    else if pairs[0].key == key then Some(pairs[0].value)
    else Under(pairs[1..], key)
  }

  lemma {:induction false} UnderJoin(a: seq<Pair>, b: seq<Pair>, key: string)
    ensures Under(a + b, key) == if Under(a, key).Some? then Under(a, key) else Under(b, key)
  {
    if a == [] {
      assert a + b == b;
    } else {
      assert (a + b)[1..] == a[1..] + b;
      UnderJoin(a[1..], b, key);
    }
  }

  lemma {:induction false} UnderReadBack(pairs: seq<Pair>, key: string)
    ensures Under(AllReadBack(pairs), key)
            == match Under(pairs, key) case None => None case Some(v) => Some(ReadBack(v))
  {
    if pairs != [] {
      UnderReadBack(pairs[1..], key);
      var first := [Pair(pairs[0].key, ReadBack(pairs[0].value))];
      assert (first + AllReadBack(pairs[1..]))[1..] == AllReadBack(pairs[1..]);
    }
  }

  /** An empty value is left out. */
  function Shown(value: string): Option<string> {
    if value == "" then None else Some(value)
  }

  /** Who did it to whom: scans and lateral movements report the attacker as the related host. */
  function Attacker(r: Report): string {
    match r.category
    case PortScan | LateralMovement => if r.relatedHost == "" then r.affectedHost else r.relatedHost
    case _ => r.affectedHost
  }

  function Victim(r: Report): string {
    match r.category
    case PortScan | LateralMovement => if r.relatedHost == "" then "" else r.affectedHost
    case _ => r.relatedHost
  }

  predicate IsScan(r: Report) { r.category in {PortScan, LateralMovement} }

  function First(a: Option<string>, b: Option<string>): Option<string> {
    if a.Some? then a else b
  }

  lemma PresentUnder(key: string, value: string, wanted: string)
    ensures Under(Present(key, value), wanted) == if key == wanted then Shown(value) else None
  {
  }

  /** The sections of the extension, one after the other. */
  lemma PairsUnder(r: Report, key: string)
    ensures var sd := SourceDest(r);
            Under(Pairs(r), key)
            == First(Under(Always(r), key),
                First(if key == "src" then Shown(sd.0) else None,
                 First(if key == "smac" then Shown(sd.1) else None,
                  First(if key == "dst" then Shown(sd.2) else None,
                   First(if key == "msg" then Shown(r.description) else None,
                    First(Under(Confidence(r), key), Under(Recommended(r.recommendedAction), key)))))))
  {
    var sd := SourceDest(r);
    PresentUnder("src", sd.0, key);
    PresentUnder("smac", sd.1, key);
    PresentUnder("dst", sd.2, key);
    PresentUnder("msg", r.description, key);
    var last := Recommended(r.recommendedAction);
    var a1 := Always(r) + Present("src", sd.0);
    var a2 := a1 + Present("smac", sd.1);
    var a3 := a2 + Present("dst", sd.2);
    var a4 := a3 + Present("msg", r.description);
    var a5 := a4 + Confidence(r);
    UnderJoin(Always(r), Present("src", sd.0), key);
    UnderJoin(a1, Present("smac", sd.1), key);
    UnderJoin(a2, Present("dst", sd.2), key);
    UnderJoin(a3, Present("msg", r.description), key);
    UnderJoin(a4, Confidence(r), key);
    UnderJoin(a5, last, key);
    assert Pairs(r) == a5 + last;
    hide Under, Always, Present, Confidence, Recommended, SourceDest, Shown, Pairs;
  }

  lemma SectionsUnder(r: Report, key: string)
    ensures Under(Always(r), key) == if key == "externalId" then Some(r.id) else if key == "rt" then Some(r.time)
                                     else if key == "cat" then Some(CategoryName(r.category)) else None
    ensures Under(Confidence(r), key) == if key == "cn1" then Some(r.confidence)
                                         else if key == "cn1Label" then Some("confidence") else None
    ensures Under(Recommended(r.recommendedAction), key)
            == if key == "cs1" then Shown(r.recommendedAction)
               else if key == "cs1Label" && r.recommendedAction != "" then Some("recommendedAction") else None
  {
    var cat, rt := Pair("cat", CategoryName(r.category)), Pair("rt", r.time);
    UnderCons(cat, [], key);
    UnderCons(rt, [cat], key);
    UnderCons(Pair("externalId", r.id), [rt, cat], key);
    UnderCons(Pair("cn1Label", "confidence"), [], key);
    UnderCons(Pair("cn1", r.confidence), [Pair("cn1Label", "confidence")], key);
    UnderCons(Pair("cs1Label", "recommendedAction"), [], key);
    UnderCons(Pair("cs1", r.recommendedAction), [Pair("cs1Label", "recommendedAction")], key);
    hide CategoryName, Under;
    assert Under([], key) == None by { UnderNothing(key); }
    assert Always(r) == [Pair("externalId", r.id)] + [rt, cat] && [rt, cat] == [rt] + [cat] && [cat] == [cat] + [];
    assert Confidence(r) == [Pair("cn1", r.confidence)] + [Pair("cn1Label", "confidence")];
    assert [Pair("cn1Label", "confidence")] + [] == [Pair("cn1Label", "confidence")];
    assert [Pair("cs1Label", "recommendedAction")] + [] == [Pair("cs1Label", "recommendedAction")];
    if r.recommendedAction != "" {
      assert Recommended(r.recommendedAction)
          == [Pair("cs1", r.recommendedAction)] + [Pair("cs1Label", "recommendedAction")];
    }
  }

  lemma UnderNothing(key: string)
    ensures Under([], key) == None
  {
  }

  lemma UnderCons(p: Pair, rest: seq<Pair>, key: string)
    ensures Under([p] + rest, key) == if p.key == key then Some(p.value) else Under(rest, key)
  {
    assert ([p] + rest)[1..] == rest;
  }

  /** What the reader of any alert's line finds, carriage returns read as line feeds.  The attacker is
      under `src` and the victim under `dst`; the hardware address is shown with the host it belongs
      to; an empty value has no key. */
  lemma LineTells(r: Report, version: string)
    ensures ReadCef(Line(HeaderFields(r, version), Pairs(r))).Some?
    ensures var (fields, pairs) := ReadCef(Line(HeaderFields(r, version), Pairs(r))).value;
            && fields[..4] == ["CEF:0", "SentinelPi", "SentinelPi", version] && |fields| == 7
            && fields[5] == (if r.title == "" then fields[4] else r.title)
            && Under(pairs, "src") == Back(Shown(Attacker(r))) && Under(pairs, "dst") == Back(Shown(Victim(r)))
            && Under(pairs, "smac") == (if IsScan(r) && r.relatedHost != "" then None else Back(Shown(r.affectedMac)))
            && Under(pairs, "msg") == Back(Shown(r.description))
            && Under(pairs, "cs1") == Back(Shown(r.recommendedAction))
            && Under(pairs, "externalId") == Back(Some(r.id)) && Under(pairs, "rt") == Back(Some(r.time))
            && Under(pairs, "cn1") == Back(Some(r.confidence)) && Under(pairs, "cat") == Back(Some(fields[4]))
            && Under(pairs, "cn1Label") == Back(Some("confidence"))
            && Under(pairs, "cs1Label") == (if r.recommendedAction == "" then None else Back(Some("recommendedAction")))
  {
    CefRoundTrip(r, version);
    SourceDestIs(r);
    hide Under, Pairs, ReadCef, Line, SourceDest, CategoryName, CefSeverity, Always, Confidence, Recommended, ReadBack;
    hide AllReadBack;
    Finds(r, "src");
    Finds(r, "dst");
    Finds(r, "smac");
    Finds(r, "msg");
    Finds(r, "cs1");
    Finds(r, "externalId");
    Finds(r, "rt");
    Finds(r, "cn1");
    Finds(r, "cat");
    Finds(r, "cn1Label");
    Finds(r, "cs1Label");
  }

  function Back(v: Option<string>): Option<string> {
    match v case None => None case Some(s) => Some(ReadBack(s))
  }

  lemma SourceDestIs(r: Report)
    ensures SourceDest(r) == (Attacker(r), if IsScan(r) && r.relatedHost != "" then "" else r.affectedMac, Victim(r))
  {
  }

  lemma Finds(r: Report, key: string)
    ensures var sd := SourceDest(r);
            Under(AllReadBack(Pairs(r)), key) == Back(match key
              case "src" => Shown(sd.0)
              case "smac" => Shown(sd.1)
              case "dst" => Shown(sd.2)
              case "msg" => Shown(r.description)
              case "cs1" => Shown(r.recommendedAction)
              case "cs1Label" => if r.recommendedAction != "" then Some("recommendedAction") else None
              case "externalId" => Some(r.id)
              case "rt" => Some(r.time)
              case "cat" => Some(CategoryName(r.category))
              case "cn1" => Some(r.confidence)
              case "cn1Label" => Some("confidence")
              case _ => None)
  {
    UnderReadBack(Pairs(r), key);
    PairsUnder(r, key);
    SectionsUnder(r, key);
    hide Under, Pairs, SourceDest, CategoryName, Always, Confidence, Recommended, AllReadBack;
  }

  /** The values of the category enumeration (models.py:33-48). */
  const NAMES: map<Category, string> := map[
    ArpAnomaly := "arp_anomaly", NewDevice := "new_device", PortScan := "port_scan", Beacon := "beacon",
    ConnectionAnomaly := "connection_anomaly", DnsAnomaly := "dns_anomaly", LateralMovement := "lateral_movement",
    AuthAnomaly := "auth_anomaly", TrafficSpike := "traffic_spike", ProcessAnomaly := "process_anomaly",
    ThreatIntel := "threat_intel", Honeypot := "honeypot", IncidentCategory := "incident", SystemCategory := "system"]

  /** Different categories are told apart by these names, and severities by rising numbers up to ten. */
  lemma NamesTell(a: Report, b: Report, version: string)
    ensures var x, y := HeaderFields(a, version), HeaderFields(b, version);
            && (x[4] == y[4] <==> a.category == b.category) && a.category in NAMES && x[4] == NAMES[a.category]
            && (x[6] == y[6] <==> a.severity == b.severity)
            && x[6] == (match a.severity case Info => "1" case Low => "3" case Medium => "5" case High => "8"
                        case Critical => "10")
  {
    NamesDiffer(a.category, b.category);
  }

  lemma NamesDiffer(a: Category, b: Category)
    ensures CategoryName(a) == CategoryName(b) <==> a == b
  {
  }
}
