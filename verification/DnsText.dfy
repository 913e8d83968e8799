/** The DNS side of the egress probe (section 4.1 of RFC 1035): building a TXT query and walking
    a response to its first TXT string. */
module DnsText {
  import opened Options
  import opened Arithmetic
  import opened Varint
  import opened Packets

  const TYPE_TXT: nat := 16
  const DOT: byte := 46

  // ---- names --------------------------------------------------------------

  /** How a name ends: at the root, or in a compression pointer. */
  datatype NameEnd = Root | Pointer(high: byte, low: byte)

  datatype Name = Name(labels: seq<seq<byte>>, end: NameEnd)

  /** Labels of 1 to 63 bytes, and a pointer that is marked as one. */
  predicate Wellformed(n: Name) {
    (forall l :: l in n.labels ==> 1 <= |l| <= 63) && (n.end.Pointer? ==> n.end.high >= 192)
  }

  function EncodeLabels(labels: seq<seq<byte>>): seq<byte> {
    if labels == [] then [] else [|labels[0]| % 256] + labels[0] + EncodeLabels(labels[1..])
  }

  function EncodeName(n: Name): seq<byte> {
    EncodeLabels(n.labels) + if n.end.Root? then [0] else [n.end.high, n.end.low]
  }

  /** skip_name: the offset just after the name at pos. */
  function SkipName(dns: seq<byte>, pos: nat): (end: Option<nat>)
    ensures end.Some? ==> pos < end.value
    decreases if pos <= |dns| then |dns| - pos else 0
  {
    if pos >= |dns| then None
    else
      var len: nat := dns[pos];
      if len >= 192 then Some(pos + 2)
      else if len == 0 then Some(pos + 1)
      else SkipName(dns, pos + 1 + len)
  }

  method SkipNameLoop(dns: seq<byte>, start: nat) returns (end: Option<nat>)
    ensures end == SkipName(dns, start)
  {
    var pos := start;
    while true
      invariant SkipName(dns, pos) == SkipName(dns, start)
      decreases if pos <= |dns| then |dns| - pos else 0
    {
      if pos >= |dns| {
        return None;
      }
      var len: nat := dns[pos];
      if len / 64 == 3 {  // len & 0xc0 == 0xc0
        return Some(pos + 2);
      }
      if len == 0 {
        return Some(pos + 1);
      }
      pos := pos + 1 + len;
    }
  }

  /** The given bytes stand in dns at offset p. */
  predicate Holds(dns: seq<byte>, p: nat, bytes: seq<byte>) {
    p + |bytes| <= |dns| && dns[p..p + |bytes|] == bytes
  }

  lemma HoldsSplit(dns: seq<byte>, p: nat, a: seq<byte>, b: seq<byte>)
    requires Holds(dns, p, a + b)
    ensures Holds(dns, p, a) && Holds(dns, p + |a|, b)
  {
    assert (a + b)[..|a|] == a && (a + b)[|a|..] == b;
  }

  /** A well-formed name is skipped exactly, wherever it stands. */
  lemma {:induction false} SkipsName(dns: seq<byte>, p: nat, n: Name)
    requires Wellformed(n) && Holds(dns, p, EncodeName(n))
    ensures SkipName(dns, p) == Some(p + |EncodeName(n)|)
    decreases |n.labels|
  {
    if n.labels == [] {
      SkipsEnd(dns, p, n);
    } else {
      var rest := Name(n.labels[1..], n.end);
      LabelStep(dns, p, n, rest);
      SkipsName(dns, p + 1 + |n.labels[0]|, rest);
    }
  }

  lemma SkipsEnd(dns: seq<byte>, p: nat, n: Name)
    requires Wellformed(n) && Holds(dns, p, EncodeName(n)) && n.labels == []
    ensures SkipName(dns, p) == Some(p + |EncodeName(n)|)
  {
    assert dns[p] == dns[p..p + |EncodeName(n)|][0];
  }

  lemma LabelStep(dns: seq<byte>, p: nat, n: Name, rest: Name)
    requires Wellformed(n) && Holds(dns, p, EncodeName(n)) && n.labels != [] && rest == Name(n.labels[1..], n.end)
    ensures var q := p + 1 + |n.labels[0]|;
            SkipName(dns, p) == SkipName(dns, q) && Holds(dns, q, EncodeName(rest)) && Wellformed(rest)
    ensures |EncodeName(n)| == 1 + |n.labels[0]| + |EncodeName(rest)|
  {
    var head: seq<byte> := [|n.labels[0]| % 256] + n.labels[0];
    assert EncodeName(n) == head + EncodeName(rest);
    HoldsSplit(dns, p, head, EncodeName(rest));
    assert n.labels[0] in n.labels;
    assert dns[p] == dns[p..p + |head|][0] == head[0];
  }

  /** The bytes between pos and end are labels of 1 to 191 bytes followed by a zero byte, or by the two
      bytes of a pointer, of which the second may be missing. */
  predicate NameBetween(dns: seq<byte>, pos: nat, end: nat, labels: seq<seq<byte>>) {
    var q := pos + |EncodeLabels(labels)|;
    && (forall i :: 0 <= i < |labels| ==> 1 <= |labels[i]| < 192)
    && Holds(dns, pos, EncodeLabels(labels)) && q < |dns|
    && ((dns[q] == 0 && end == q + 1) || (dns[q] >= 192 && end == q + 2))
  }

  /** skip_name on every byte string: it stops at `end` iff just that stands in front of it. */
  lemma SkipNameIff(dns: seq<byte>, pos: nat, end: nat)
    ensures SkipName(dns, pos) == Some(end) <==> exists labels :: NameBetween(dns, pos, end, labels)
  {
    if SkipName(dns, pos) == Some(end) {
      var labels := SkippedLabels(dns, pos);
      assert NameBetween(dns, pos, end, labels);
    }
    if labels :| NameBetween(dns, pos, end, labels) {
      LabelsSkip(dns, pos, end, labels);
    }
  }

  lemma {:induction false} SkippedLabels(dns: seq<byte>, pos: nat) returns (labels: seq<seq<byte>>)
    requires SkipName(dns, pos).Some?
    ensures NameBetween(dns, pos, SkipName(dns, pos).value, labels)
    decreases |dns| - pos
  {
    var len: nat := dns[pos];
    if len >= 192 || len == 0 {
      labels := [];
    } else {
      var rest := SkippedLabels(dns, pos + 1 + len);
      labels := [dns[pos + 1..pos + 1 + len]] + rest;
      FirstLabel(dns, pos, len, rest);
    }
  }

  lemma FirstLabel(dns: seq<byte>, pos: nat, len: nat, rest: seq<seq<byte>>)
    requires 1 <= len < 192 && pos + 1 + len <= |dns| && dns[pos] == len && Holds(dns, pos + 1 + len, EncodeLabels(rest))
    ensures var labels := [dns[pos + 1..pos + 1 + len]] + rest;
            Holds(dns, pos, EncodeLabels(labels)) && |EncodeLabels(labels)| == 1 + len + |EncodeLabels(rest)|
  {
    var piece, labels := dns[pos + 1..pos + 1 + len], [dns[pos + 1..pos + 1 + len]] + rest;
    assert labels[1..] == rest;
    assert EncodeLabels(labels) == [len] + piece + EncodeLabels(rest);
    var n := |EncodeLabels(rest)|;
    assert dns[pos..pos + 1 + len + n] == dns[pos..pos + 1] + dns[pos + 1..pos + 1 + len] + dns[pos + 1 + len..pos + 1 + len + n];
  }

  lemma {:induction false} LabelsSkip(dns: seq<byte>, pos: nat, end: nat, labels: seq<seq<byte>>)
    requires NameBetween(dns, pos, end, labels)
    ensures SkipName(dns, pos) == Some(end)
    decreases |labels|
  {
    if labels != [] {
      var head: seq<byte> := [|labels[0]| % 256] + labels[0];
      assert EncodeLabels(labels) == head + EncodeLabels(labels[1..]);
      HoldsSplit(dns, pos, head, EncodeLabels(labels[1..]));
      assert dns[pos] == dns[pos..pos + |head|][0] == head[0];
      LabelsSkip(dns, pos + |head|, end, labels[1..]);
    }
  }

  // ---- the query ----------------------------------------------------------

  /** name.split('.'): always at least one piece. */
  function Split(name: seq<byte>): (labels: seq<seq<byte>>)
    ensures labels != []
  {
    if name == [] then [[]]
    else
      var rest := Split(name[1..]);
      if name[0] == DOT then [[]] + rest else [[name[0]] + rest[0]] + rest[1..]
  }

  /** The pieces with dots between them. */
  function Join(labels: seq<seq<byte>>): seq<byte> {
    if labels == [] then [] else if |labels| == 1 then labels[0] else labels[0] + [46] + Join(labels[1..])
  }

  /** The pieces are the name cut at every dot, and at dots only. */
  lemma {:induction false} SplitJoins(name: seq<byte>)
    ensures Join(Split(name)) == name
    ensures forall i :: 0 <= i < |Split(name)| ==> 46 !in Split(name)[i]
  {
    if name != [] {
      var rest := Split(name[1..]);
      SplitJoins(name[1..]);
      assert name == [name[0]] + name[1..];
      if name[0] == DOT {
        assert ([[]] + rest)[1..] == rest;
      } else {
        var first := [name[0]] + rest[0];
        assert ([first] + rest[1..])[1..] == rest[1..];
        JoinFirst(name[0], rest);
      }
    }
  }

  lemma JoinFirst(c: byte, labels: seq<seq<byte>>)
    requires labels != []
    ensures Join([[c] + labels[0]] + labels[1..]) == [c] + Join(labels)
  {
    var longer := [[c] + labels[0]] + labels[1..];
    assert longer[1..] == labels[1..];
  }

  lemma {:induction false} LabelsConcat(a: seq<seq<byte>>, b: seq<seq<byte>>)
    ensures EncodeLabels(a + b) == EncodeLabels(a) + EncodeLabels(b)
  {
    if a == [] {
      assert a + b == b;
    } else {
      assert (a + b)[1..] == a[1..] + b;
      LabelsConcat(a[1..], b);
    }
  }

  /** A label on the wire is its length byte and its bytes; with LabelsConcat this says what a name is. */
  lemma LabelBytes(piece: seq<byte>)
    ensures EncodeLabels([]) == [] && EncodeLabels([piece]) == [|piece| % 256] + piece
  {
    assert [piece][1..] == [];
  }

  function QueryHeader(id: nat): (h: seq<byte>)
    ensures |h| == 12
  {
    U16(id) + U16(0x0100) + U16(1) + [0, 0, 0, 0, 0, 0]
  }

  /** Header, QNAME, QTYPE, QCLASS. */
  function Query(id: nat, name: seq<byte>, qclass: nat): seq<byte> {
    QueryHeader(id) + EncodeName(Name(Split(name), Root)) + U16(TYPE_TXT) + U16(qclass)
  }

  method BuildDnsTxtQuery(id: nat, name: seq<byte>, qclass: nat) returns (m: seq<byte>)
    ensures m == Query(id, name, qclass)
    ensures |m| >= 17 && m[..12] == [id / 256 % 256, id % 256, 1, 0, 0, 1, 0, 0, 0, 0, 0, 0]
    ensures m[12..|m| - 5] == EncodeLabels(Split(name))
    ensures m[|m| - 5..] == [0, 0, 16, qclass / 256 % 256, qclass % 256]
  {
    QueryBytes(id, name, qclass);
    m := U16(id);
    m := m + U16(0x0100);
    m := m + U16(1);
    m := m + [0, 0, 0, 0, 0, 0];
    var labels := Split(name);
    assert labels[..0] == [];
    for i := 0 to |labels|
      invariant m == QueryHeader(id) + EncodeLabels(labels[..i])
    {
      LabelsSnoc(labels, i);
      m := m + [|labels[i]| % 256];
      m := m + labels[i];
    }
    assert labels[..|labels|] == labels;
    m := m + [0];
    m := m + U16(16);
    m := m + U16(qclass);
  }

  /** The query byte by byte: the id, recursion desired, one question, no records; the name; TXT and the class. */
  lemma QueryBytes(id: nat, name: seq<byte>, qclass: nat)
    ensures var m := Query(id, name, qclass);
            && |m| >= 17 && m[..12] == [id / 256 % 256, id % 256, 1, 0, 0, 1, 0, 0, 0, 0, 0, 0]
            && m[12..|m| - 5] == EncodeLabels(Split(name)) && m[|m| - 5..] == [0, 0, 16, qclass / 256 % 256, qclass % 256]
  {
    var m, labels := Query(id, name, qclass), EncodeLabels(Split(name));
    assert QueryHeader(id) == [id / 256 % 256, id % 256, 1, 0, 0, 1, 0, 0, 0, 0, 0, 0];
    var tail: seq<byte> := [0, 0, 16, qclass / 256 % 256, qclass % 256];
    assert EncodeName(Name(Split(name), Root)) == labels + [0];
    assert m == QueryHeader(id) + labels + tail;
  }

  lemma {:induction false} LabelsSnoc(labels: seq<seq<byte>>, i: nat)
    requires i < |labels|
    ensures EncodeLabels(labels[..i + 1]) == EncodeLabels(labels[..i]) + [|labels[i]| % 256] + labels[i]
  {
    if i == 0 {
      assert labels[..1][1..] == [];
    } else {
      assert labels[..i + 1][1..] == labels[1..][..i] && labels[..i][1..] == labels[1..][..i - 1];
      LabelsSnoc(labels[1..], i - 1);
    }
  }

  /** The name of every query built from labels of 1 to 63 bytes is skipped to its QTYPE. */
  lemma QueryNameSkips(id: nat, name: seq<byte>, qclass: nat)
    requires forall l :: l in Split(name) ==> 1 <= |l| <= 63
    ensures SkipName(Query(id, name, qclass), 12) == Some(|Query(id, name, qclass)| - 4)
  {
    var n := Name(Split(name), Root);
    SkipsName(Query(id, name, qclass), 12, n);
  }

  // ---- the response -------------------------------------------------------

  /** Where a record's type and data stand. */
  datatype Span = Span(rtype: nat, rdata: nat, next: nat)

  /** The record at pos, when it lies inside the message. */
  function SpanAt(dns: seq<byte>, pos: nat): (s: Option<Span>)
    ensures s.Some? ==> pos < s.value.rdata <= s.value.next <= |dns|
  {
    match SkipName(dns, pos)
    case None => None
    case Some(p) =>
      if p + 10 > |dns| || p + 10 + WordAt(dns, p + 8) > |dns| then None
      else Some(Span(WordAt(dns, p), p + 10, p + 10 + WordAt(dns, p + 8)))
  }

  /** The character string at `at`, cut off at the end of the message. */
  function TextAt(dns: seq<byte>, at: nat): seq<byte>
    requires at < |dns|
  {
    var len: nat := dns[at];
    dns[at + 1..if at + 1 + len < |dns| then at + 1 + len else |dns|]
  }

  /** Where the data of the first non-empty TXT record among `count` records from pos on stands, as
      parse_first_txt walks them. */
  function ScanAnswers(dns: seq<byte>, pos: nat, count: nat): (at: Option<nat>)
    ensures at.Some? ==> at.value < |dns|
    decreases count
  {
    if count == 0 then None
    else
      match SpanAt(dns, pos)
      case None => None
      case Some(s) =>
        if s.rtype == TYPE_TXT && s.next > s.rdata then Some(s.rdata)
        else ScanAnswers(dns, s.next, count - 1)
  }

  function FindTxt(dns: seq<byte>): (at: Option<nat>)
    ensures at.Some? ==> at.value < |dns|
  {
    if |dns| < 12 || WordAt(dns, 6) == 0 then None
    else
      match SkipName(dns, 12)
      case None => None
      case Some(p) => ScanAnswers(dns, p + 4, WordAt(dns, 6))
  }

  function FirstTxtOf(dns: seq<byte>): Option<seq<byte>> {
    match FindTxt(dns)
    case None => None
    case Some(at) => Some(TextAt(dns, at))
  }

  /** The header fields of one record, with the checks of the loop body. */
  method ReadSpan(dns: seq<byte>, pos: nat) returns (s: Option<Span>)
    ensures s == SpanAt(dns, pos)
  {
    var name := SkipNameLoop(dns, pos);
    if name.None? {
      return None;
    }
    var p: nat := name.value;
    if p + 10 > |dns| {
      return None;
    }
    var rtype: nat, rdlen: nat := WordAt(dns, p), WordAt(dns, p + 8);
    var rdata: nat := p + 10;
    if rdata + rdlen > |dns| {
      return None;
    }
    s := Some(Span(rtype, rdata, rdata + rdlen));
  }

  /** parse_first_txt: in bounds and terminating on every byte string. */
  method ParseFirstTxt(dns: seq<byte>) returns (txt: Option<seq<byte>>)
    ensures txt == FirstTxtOf(dns)
  {
    if |dns| < 12 {
      return None;
    }
    var ancount: nat := WordAt(dns, 6);
    if ancount == 0 {
      return None;
    }
    var name := SkipNameLoop(dns, 12);
    if name.None? {
      return None;
    }
    var pos: nat := name.value + 4;
    ghost var want := FindTxt(dns);
    for i := 0 to ancount
      invariant ScanAnswers(dns, pos, ancount - i) == want
    {
      var s := ReadSpan(dns, pos);
      if s.None? {
        return None;
      }
      if s.value.rtype == 16 && s.value.next > s.value.rdata {
        txt := Some(TextAt(dns, s.value.rdata));
        return;
      }
      pos := s.value.next;
    }
    txt := None;
  }

  /** The record at p is TXT with some data, and its first string is txt, cut off at the end of the message. */
  predicate TxtAt(dns: seq<byte>, p: nat, txt: seq<byte>) {
    match SpanAt(dns, p)
    case None => false
    case Some(s) =>
      s.rtype == 16 && s.rdata < s.next &&
      var end := s.rdata + 1 + (dns[s.rdata] as int);
      txt == dns[s.rdata + 1..if end < |dns| then end else |dns|]
  }

  /** k records, none of them TXT with data, stand between pos and p. */
  predicate OthersBetween(dns: seq<byte>, pos: nat, k: nat, p: nat)
    decreases k
  {
    if k == 0 then p == pos
    else
      SpanAt(dns, pos).Some? &&
      var s := SpanAt(dns, pos).value;
      !(s.rtype == 16 && s.rdata < s.next) && OthersBetween(dns, s.next, k - 1, p)
  }

  /** A record's header: the name, then type, six bytes, and the data's length, most significant byte first. */
  lemma SpanIff(dns: seq<byte>, pos: nat, rtype: nat, rdata: nat, next: nat)
    ensures SpanAt(dns, pos) == Some(Span(rtype, rdata, next)) <==>
              && SkipName(dns, pos).Some? && var p := SkipName(dns, pos).value;
              && p + 10 <= |dns| && rtype == 256 * (dns[p] as int) + (dns[p + 1] as int) && rdata == p + 10
              && next == rdata + 256 * (dns[p + 8] as int) + (dns[p + 9] as int) && next <= |dns|
  {
  }

  lemma TxtHere(dns: seq<byte>, p: nat)
    requires SpanAt(dns, p).Some? && SpanAt(dns, p).value.rtype == 16
    requires SpanAt(dns, p).value.rdata < SpanAt(dns, p).value.next
    ensures TxtAt(dns, p, TextAt(dns, SpanAt(dns, p).value.rdata))
  {
  }

  lemma {:induction false} ScanGives(dns: seq<byte>, pos: nat, count: nat) returns (k: nat, p: nat)
    requires ScanAnswers(dns, pos, count).Some?
    ensures k < count && OthersBetween(dns, pos, k, p)
    ensures TxtAt(dns, p, TextAt(dns, ScanAnswers(dns, pos, count).value))
    decreases count
  {
    var s := SpanAt(dns, pos).value;
    if s.rtype == 16 && s.rdata < s.next {
      k, p := 0, pos;
      TxtHere(dns, pos);
    } else {
      k, p := ScanGives(dns, s.next, count - 1);
      k := k + 1;
    }
  }

  lemma {:induction false} ScanTakes(dns: seq<byte>, pos: nat, count: nat, k: nat, p: nat, txt: seq<byte>)
    requires k < count && OthersBetween(dns, pos, k, p) && TxtAt(dns, p, txt)
    ensures ScanAnswers(dns, pos, count).Some? && TextAt(dns, ScanAnswers(dns, pos, count).value) == txt
    decreases count
  {
    if k > 0 {
      ScanTakes(dns, SpanAt(dns, pos).value.next, count - 1, k - 1, p, txt);
    }
  }

  /** Record k of those from `first` on, at p, is the first TXT record with data, and it starts with txt. */
  predicate FirstTxtAt(dns: seq<byte>, first: nat, k: nat, p: nat, txt: seq<byte>) {
    OthersBetween(dns, first, k, p) && TxtAt(dns, p, txt)
  }

  /** Among the first `count` records from `first` on, the first TXT record with data starts with txt. */
  ghost predicate HasTxt(dns: seq<byte>, first: nat, count: nat, txt: seq<byte>) {
    exists k: nat, p: nat :: k < count && FirstTxtAt(dns, first, k, p, txt)
  }

  lemma ScanIff(dns: seq<byte>, first: nat, count: nat, txt: seq<byte>)
    ensures HasTxt(dns, first, count, txt) <==>
              ScanAnswers(dns, first, count).Some? && TextAt(dns, ScanAnswers(dns, first, count).value) == txt
  {
    if HasTxt(dns, first, count, txt) {
      var k: nat, p: nat :| k < count && FirstTxtAt(dns, first, k, p, txt);
      ScanTakes(dns, first, count, k, p, txt);
    } else if ScanAnswers(dns, first, count).Some? {
      var k, p := ScanGives(dns, first, count);
      assert FirstTxtAt(dns, first, k, p, TextAt(dns, ScanAnswers(dns, first, count).value));
    }
  }

  /** parse_first_txt on every byte string: it returns a string iff that stands in the first TXT record
      with data among the announced answers, all records before it lying inside the message. */
  lemma FirstTxtIff(dns: seq<byte>, txt: seq<byte>)
    ensures FirstTxtOf(dns) == Some(txt) <==>
              && |dns| >= 12 && SkipName(dns, 12).Some?
              && HasTxt(dns, SkipName(dns, 12).value + 4, 256 * (dns[6] as int) + (dns[7] as int), txt)
  {
    if |dns| >= 12 && SkipName(dns, 12).Some? {
      ScanIff(dns, SkipName(dns, 12).value + 4, WordAt(dns, 6), txt);
    }
  }

  /** A resource record; `fixed` is its class and TTL. */
  datatype Record = Record(name: Name, rtype: nat, fixed: seq<byte>, rdata: seq<byte>)

  /** One length byte, then at least that many bytes. */
  predicate HoldsText(rdata: seq<byte>) {
    |rdata| >= 1 && var len: nat := rdata[0]; 1 + len <= |rdata|
  }

  /** The first character string of a TXT record's data. */
  function Text(rdata: seq<byte>): seq<byte> {
    if HoldsText(rdata) then var len: nat := rdata[0]; rdata[1..1 + len] else []
  }

  /** A TXT record holds at least one whole character string. */
  predicate RecordOk(r: Record) {
    Wellformed(r.name) && r.rtype < WORD16 && |r.fixed| == 6 && |r.rdata| < WORD16 &&
    (r.rtype == TYPE_TXT ==> HoldsText(r.rdata))
  }

  predicate RecordsOk(rs: seq<Record>) {
    forall i :: 0 <= i < |rs| ==> RecordOk(rs[i])
  }

  lemma TailOk(rs: seq<Record>)
    requires RecordsOk(rs) && rs != []
    ensures RecordsOk(rs[1..])
  {
  }

  function EncodeRecord(r: Record): seq<byte> {
    EncodeName(r.name) + U16(r.rtype) + r.fixed + U16(|r.rdata|) + r.rdata
  }

  function EncodeRecords(rs: seq<Record>): seq<byte> {
    if rs == [] then [] else EncodeRecord(rs[0]) + EncodeRecords(rs[1..])
  }

  /** A response with one question; `ids` is ID, flags and QDCOUNT, `counts` NSCOUNT and ARCOUNT,
      `trailer` the authority and additional sections. */
  datatype Response = Response(ids: seq<byte>, counts: seq<byte>, question: Name, qfixed: seq<byte>,
                               answers: seq<Record>, trailer: seq<byte>)

  predicate ResponseOk(m: Response) {
    |m.ids| == 6 && |m.counts| == 4 && Wellformed(m.question) && |m.qfixed| == 4 && |m.answers| < WORD16 &&
    RecordsOk(m.answers)
  }

  function EncodeResponse(m: Response): seq<byte> {
    m.ids + U16(|m.answers|) + m.counts + EncodeName(m.question) + m.qfixed + EncodeRecords(m.answers) + m.trailer
  }

  /** The first string of the first TXT record. */
  function FirstTxt(answers: seq<Record>): Option<seq<byte>> {
    if answers == [] then None
    else if answers[0].rtype == TYPE_TXT then Some(Text(answers[0].rdata))
    else FirstTxt(answers[1..])
  }

  /** The walk sees the record r between p and next. */
  predicate SeenAt(dns: seq<byte>, p: nat, next: nat, r: Record) {
    match SpanAt(dns, p)
    case None => false
    case Some(s) =>
      s.rtype == r.rtype && s.next == next &&
      (r.rtype == TYPE_TXT ==> s.rdata < next && TextAt(dns, s.rdata) == Text(r.rdata))
  }

  /** The walk sees the given records one after another from p on. */
  ghost predicate AllSeen(dns: seq<byte>, p: nat, rs: seq<Record>)
    decreases |rs|
  {
    rs == [] || exists next: nat :: SeenAt(dns, p, next, rs[0]) && AllSeen(dns, next, rs[1..])
  }

  lemma {:induction false} EncodedAreSeen(dns: seq<byte>, p: nat, rs: seq<Record>)
    requires RecordsOk(rs) && Holds(dns, p, EncodeRecords(rs))
    ensures AllSeen(dns, p, rs)
    decreases |rs|
  {
    if rs != [] {
      var r, rest := rs[0], rs[1..];
      HoldsSplit(dns, p, EncodeRecord(r), EncodeRecords(rest));
      EncodedIsSeen(dns, p, r);
      TailOk(rs);
      EncodedAreSeen(dns, p + |EncodeRecord(r)|, rest);
    }
  }

  lemma EncodedIsSeen(dns: seq<byte>, p: nat, r: Record)
    requires RecordOk(r) && Holds(dns, p, EncodeRecord(r))
    ensures SeenAt(dns, p, p + |EncodeRecord(r)|, r)
  {
    RecordWalk(dns, p, r);
    if r.rtype == TYPE_TXT {
      TextHeld(dns, p + |EncodeRecord(r)| - |r.rdata|, r.rdata);
    }
  }

  lemma {:induction false} ScanFinds(dns: seq<byte>, p: nat, answers: seq<Record>)
    requires AllSeen(dns, p, answers)
    ensures var at := ScanAnswers(dns, p, |answers|);
            FirstTxt(answers) == if at.None? then None else Some(TextAt(dns, at.value))
    decreases |answers|
  {
    if answers != [] {
      var next: nat :| SeenAt(dns, p, next, answers[0]) && AllSeen(dns, next, answers[1..]);
      if answers[0].rtype != TYPE_TXT {
        ScanFinds(dns, next, answers[1..]);
      }
    }
  }

  lemma TextHeld(dns: seq<byte>, at: nat, rdata: seq<byte>)
    requires HoldsText(rdata) && Holds(dns, at, rdata)
    ensures TextAt(dns, at) == Text(rdata)
  {
    var len: nat := rdata[0];
    assert rdata == rdata[..1] + Text(rdata) + rdata[1 + len..];
    HoldsSplit(dns, at, rdata[..1] + Text(rdata), rdata[1 + len..]);
    HoldsSplit(dns, at, rdata[..1], Text(rdata));
    assert dns[at] == dns[at..at + 1][0];
  }

  /** What the walk sees of one record. */
  lemma RecordWalk(dns: seq<byte>, p: nat, r: Record)
    requires RecordOk(r) && Holds(dns, p, EncodeRecord(r))
    ensures var next := p + |EncodeRecord(r)|;
            SpanAt(dns, p) == Some(Span(r.rtype, next - |r.rdata|, next)) && Holds(dns, next - |r.rdata|, r.rdata)
  {
    FrontHolds(dns, p, EncodeName(r.name), U16(r.rtype), r.fixed, U16(|r.rdata|), r.rdata);
    SkipsName(dns, p, r.name);
    SpanOf(dns, p, EncodeName(r.name), r.rtype, r.fixed, r.rdata);
  }

  lemma FrontHolds(dns: seq<byte>, p: nat, a: seq<byte>, b: seq<byte>, c: seq<byte>, d: seq<byte>, e: seq<byte>)
    requires Holds(dns, p, a + b + c + d + e)
    ensures Holds(dns, p, a)
  {
    RecordParts(dns, p, a, b, c, d, e);
  }

  lemma SpanOf(dns: seq<byte>, p: nat, name: seq<byte>, rtype: nat, fixed: seq<byte>, rdata: seq<byte>)
    requires rtype < WORD16 && |rdata| < WORD16 && |fixed| == 6 && SkipName(dns, p) == Some(p + |name|)
    requires Holds(dns, p, name + U16(rtype) + fixed + U16(|rdata|) + rdata)
    ensures var q := p + |name|;
            SpanAt(dns, p) == Some(Span(rtype, q + 10, q + 10 + |rdata|)) && Holds(dns, q + 10, rdata)
  {
    RecordParts(dns, p, name, U16(rtype), fixed, U16(|rdata|), rdata);
    WordOfU16(dns, p + |name|, rtype);
    WordOfU16(dns, p + |name| + 8, |rdata|);
  }

  lemma RecordParts(dns: seq<byte>, p: nat, a: seq<byte>, b: seq<byte>, c: seq<byte>, d: seq<byte>, e: seq<byte>)
    requires Holds(dns, p, a + b + c + d + e)
    ensures Holds(dns, p, a) && Holds(dns, p + |a|, b) && Holds(dns, p + |a| + |b|, c)
    ensures Holds(dns, p + |a| + |b| + |c|, d) && Holds(dns, p + |a| + |b| + |c| + |d|, e)
  {
    HoldsSplit(dns, p, a + b + c + d, e);
    HoldsSplit(dns, p, a + b + c, d);
    HoldsSplit(dns, p, a + b, c);
    HoldsSplit(dns, p, a, b);
  }

  /** On every well-formed one-question response the first TXT string is returned, wherever among
      the answers it stands, with or without name compression; None means there is none. */
  lemma ParsesResponse(m: Response)
    requires ResponseOk(m)
    ensures FirstTxtOf(EncodeResponse(m)) == FirstTxt(m.answers)
  {
    var dns, question, records := EncodeResponse(m), EncodeName(m.question), EncodeRecords(m.answers);
    ResponseParts(dns, m.ids, U16(|m.answers|), m.counts, question, m.qfixed, records, m.trailer);
    WordOfU16(dns, 6, |m.answers|);
    SkipsName(dns, 12, m.question);
    EncodedAreSeen(dns, 16 + |question|, m.answers);
    ScanFinds(dns, 16 + |question|, m.answers);
  }

  lemma ResponseParts(dns: seq<byte>, ids: seq<byte>, count: seq<byte>, counts: seq<byte>, question: seq<byte>,
                      qfixed: seq<byte>, records: seq<byte>, trailer: seq<byte>)
    requires dns == ids + count + counts + question + qfixed + records + trailer
    requires |ids| == 6 && |count| == 2 && |counts| == 4 && |qfixed| == 4
    ensures Holds(dns, 6, count) && Holds(dns, 12, question) && Holds(dns, 16 + |question|, records)
  {
    assert Holds(dns, 0, dns);
    HoldsSplit(dns, 0, ids + count + counts + question + qfixed + records, trailer);
    HoldsSplit(dns, 0, ids + count + counts + question + qfixed, records);
    HoldsSplit(dns, 0, ids + count + counts + question, qfixed);
    HoldsSplit(dns, 0, ids + count + counts, question);
    HoldsSplit(dns, 0, ids + count, counts);
    HoldsSplit(dns, 0, ids, count);
  }
}
