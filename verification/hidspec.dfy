/** HID report descriptors: kernel/hardware/hid/parse.c, after section 6.2.2 of the HID 1.11
    specification. */
module HidSpec {
  import opened Products
  import opened Wrappers

  type Byte = b: int | 0 <= b < 256

  // ----- items -----

  datatype Item =
    | Short(tp: nat, tag: nat, size: nat, data: nat)
    | Long(tp: nat, tag: nat, body: seq<Byte>)

  const TAG_LONG: nat := 15

  function Little(bs: seq<Byte>): nat { if bs == [] then 0 else bs[0] + 256 * Little(bs[1..]) }

  function Digits(v: nat, n: nat): (r: seq<Byte>)
    ensures |r| == n
  {
    if n == 0 then [] else [v % 256] + Digits(v / 256, n - 1)
  }

  function Power(n: nat): nat { if n == 0 then 1 else 256 * Power(n - 1) }

  lemma {:induction false} LittleDigits(v: nat, n: nat)
    requires v < Power(n)
    ensures Little(Digits(v, n)) == v
  {
    if n > 0 {
      LittleDigits(v / 256, n - 1);
      assert Digits(v, n)[1..] == Digits(v / 256, n - 1);
    }
  }

  lemma FirstDigit(b: Byte, v: nat)
    ensures (b + 256 * v) % 256 == b && (b + 256 * v) / 256 == v
  {
  }

  lemma {:induction false} DigitsLittle(bs: seq<Byte>)
    ensures Little(bs) < Power(|bs|) && Digits(Little(bs), |bs|) == bs
  {
    if bs != [] {
      DigitsLittle(bs[1..]);
      FirstDigit(bs[0], Little(bs[1..]));
      assert bs == [bs[0]] + bs[1..];
    }
  }

  /** _fetchItem: the item at the front and what follows it. */
  function Fetch(bs: seq<Byte>): (r: Option<(Item, seq<Byte>)>)
    ensures r.Some? ==> |r.value.1| < |bs|
  {
    if bs == [] then None
    else
      var b, rest := bs[0], bs[1..];
      if b / 16 == TAG_LONG then
        if |rest| < 2 || |rest| - 2 < rest[0] then None
        else Some((Long(b / 4 % 4, rest[1], rest[2..2 + rest[0]]), rest[2 + rest[0]..]))
      else
        var size := if b % 4 == 3 then 4 else b % 4;
        if |rest| < size then None else Some((Short(b / 4 % 4, b / 16, size, Little(rest[..size])), rest[size..]))
  }

  /** A short item that section 6.2.2.2 allows. */
  ghost predicate ShortOk(it: Item) {
    it.Short? && it.tp < 4 && it.tag < TAG_LONG && (it.size == 0 || it.size == 1 || it.size == 2 || it.size == 4) &&
        it.data < Power(it.size)
  }

  function Encode(it: Item): (r: seq<Byte>)
    requires it.Short? && it.tp < 4 && it.tag < TAG_LONG && it.size <= 4
  {
    [16 * it.tag + 4 * it.tp + (if it.size == 4 then 3 else it.size % 4)] + Digits(it.data, it.size)
  }

  lemma HeadByte(tag: nat, tp: nat, code: nat)
    requires tag < 15 && tp < 4 && code < 4
    ensures var b := 16 * tag + 4 * tp + code; b < 240 && b / 16 == tag && b / 4 % 4 == tp && b % 4 == code
  {
  }

  /** Fetching undoes encoding. */
  lemma FetchEncode(it: Item, rest: seq<Byte>)
    requires ShortOk(it)
    ensures Fetch(Encode(it) + rest) == Some((it, rest))
  {
    hide Little, Digits, Power;
    var code := if it.size == 4 then 3 else it.size;
    HeadByte(it.tag, it.tp, code);
    var bs := Encode(it) + rest;
    assert bs[0] == 16 * it.tag + 4 * it.tp + code;
    assert bs[1..] == Digits(it.data, it.size) + rest;
    assert bs[1..][..it.size] == Digits(it.data, it.size) && bs[1..][it.size..] == rest;
    LittleDigits(it.data, it.size);
  }

  /** And encoding undoes fetching. */
  lemma EncodeFetch(bs: seq<Byte>)
    requires Fetch(bs).Some? && Fetch(bs).value.0.Short?
    ensures var (it, rest) := Fetch(bs).value; ShortOk(it) && bs == Encode(it) + rest
  {
    hide Little, Digits, Power;
    var (it, rest) := Fetch(bs).value;
    DigitsLittle(bs[1..][..it.size]);
    assert bs == [bs[0]] + bs[1..][..it.size] + bs[1..][it.size..];
  }

  /** hw_hid_Item_sdata: the data as a signed number of the item's size. */
  function Signed(size: nat, data: nat): int {
    if size == 1 && data >= 0x80 then data - 0x100
    else if size == 2 && data >= 0x8000 then data - 0x1_0000
    else if size == 4 && data >= 0x8000_0000 then data - 0x1_0000_0000
    else data
  }

  lemma SignedRange(it: Item)
    requires ShortOk(it)
    ensures var v := Signed(it.size, it.data);
            && (v == it.data || v == it.data - Power(it.size))
            && 2 * v + Power(it.size) >= 0 && (it.size > 0 ==> 2 * v < Power(it.size))
  {
    assert Power(1) == 256 && Power(2) == 65536;
    assert Power(4) == 0x1_0000_0000 by { assert Power(3) == 0x100_0000; }
  }

  // ----- the parser's state -----

  function ToI32(v: nat): int {
    if v % 0x1_0000_0000 >= 0x8000_0000 then v % 0x1_0000_0000 - 0x1_0000_0000 else v % 0x1_0000_0000
  }

  function ToU32(v: int): nat { v % 0x1_0000_0000 }

  datatype Global = Global(usagePg: nat, logicalMin: int, logicalMax: int, physicalMin: int, physicalMax: int,
                           unitExponent: int, unit: nat, reportSz: nat, reportCnt: nat, reportId: nat)

  datatype Local = Local(usage: seq<nat>, usageMin: nat, depth: nat, branch: nat)

  datatype Collection = Collection(tp: nat, usage: nat, lvl: nat)

  datatype Field = Field(off: nat, usages: seq<nat>, flag: nat, glo: Global)

  datatype Report = Report(sz: nat, fields: seq<Field>)

  /** reports is keyed by report type and id. */
  datatype Parser = Parser(glo: Global, stk: seq<Global>, loc: Local, cols: seq<Collection>, colStk: seq<nat>,
                           apps: nat, reports: map<(nat, nat), Report>)

  const STK_SIZE: nat := 256 // hw_hid_ParserGlobal_StkSize and hw_hid_Parser_CollectStkSz
  const MX_USAGES: nat := 8192 // hw_hid_ParserLocal_UsageMx
  const MX_REPORTS: nat := 256
  const MX_FIELDS: nat := 256
  const MX_BITS: nat := 131064 // (hw_hid_Parser_MxBufSz - 1) << 3

  const NO_LOCAL := Local([], 0, 0, 0)

  /** The parser as _initParser leaves it. */
  const FRESH := Parser(Global(0, 0, 0, 0, 0, 0, 0, 0, 0, 0), [], NO_LOCAL, [], [], 0, map[])

  // ----- global items -----

  function GlobalItem(p: Parser, it: Item): (Parser, bool)
    requires it.Short?
  {
    var g, u, s := p.glo, it.data, Signed(it.size, it.data);
    if it.tag == 0xa then
      if |p.stk| == STK_SIZE then (p, false) else (p.(stk := p.stk + [g]), true)
    else if it.tag == 0xb then
      if p.stk == [] then (p, false) else (p.(glo := p.stk[|p.stk| - 1], stk := p.stk[..|p.stk| - 1]), true)
    else if it.tag == 0x0 then (p.(glo := g.(usagePg := u)), true)
    else if it.tag == 0x1 then (p.(glo := g.(logicalMin := s)), true)
    else if it.tag == 0x2 then (p.(glo := g.(logicalMax := if g.logicalMin < 0 then s else ToI32(u))), true)
    else if it.tag == 0x3 then (p.(glo := g.(physicalMin := s)), true)
    else if it.tag == 0x4 then (p.(glo := g.(physicalMax := if g.physicalMin < 0 then s else ToI32(u))), true)
    else if it.tag == 0x5 then (p.(glo := g.(unitExponent := s)), true)
    else if it.tag == 0x6 then (p.(glo := g.(unit := u)), true)
    else if it.tag == 0x7 then (p.(glo := g.(reportSz := u)), u <= 32)
    else if it.tag == 0x9 then (p.(glo := g.(reportCnt := u)), u <= 256)
    else if it.tag == 0x8 then (p.(glo := g.(reportId := u)), u != 0)
    else (p, false)
  }

  // ----- local items -----

  function AddUsage(l: Local, usage: nat): (Local, bool) {
    if |l.usage| >= MX_USAGES then (l, false) else (l.(usage := l.usage + [usage]), true)
  }

  /** The loop of UsageMaximum.  Its counter is a 32-bit word. */
  function AddUsages(l: Local, n: nat, last: nat): (Local, bool)
    decreases if |l.usage| < MX_USAGES then MX_USAGES - |l.usage| else 0
  {
    if n > last then (l, true)
    else
      var (l1, ok) := AddUsage(l, n);
      if ok then AddUsages(l1, ToU32(n + 1), last) else (l1, false)
  }

  /** The usages n to last. */
  function Range(n: nat, last: nat): (r: seq<nat>)
    ensures |r| == if n <= last then last - n + 1 else 0
    ensures forall i | 0 <= i < |r| :: r[i] == n + i
  {
    if n > last then [] else seq(last - n + 1, i requires 0 <= i => n + i)
  }

  /** Usages of up to two bytes are completed by the usage page, in 32 bits. */
  function Paged(g: Global, size: nat, data: nat): nat { if size <= 2 then ToU32(65536 * g.usagePg + data) else data }

  function LocalItem(p: Parser, it: Item): (Parser, bool)
    requires it.Short?
  {
    var l := p.loc;
    if it.size == 0 then (p, false)
    else if it.tag == 0xa then
      if it.data != 0 then
        if l.depth != 0 then (p, false) else (p.(loc := l.(depth := l.depth + 1, branch := l.branch + 1)), true)
      else if l.depth < 1 then (p, false) else (p.(loc := l.(depth := l.depth - 1)), true)
    else if it.tag == 0x0 then
      if l.branch > 1 then (p, true)
          else var (l1, ok) := AddUsage(l, Paged(p.glo, it.size, it.data)); (p.(loc := l1), ok)
    else if it.tag == 0x1 then
      if l.branch > 1 then (p, true) else (p.(loc := l.(usageMin := Paged(p.glo, it.size, it.data))), true)
    else if it.tag == 0x2 then
      if l.branch > 1 then (p, true)
      else var (l1, ok) := AddUsages(l, l.usageMin, Paged(p.glo, it.size, it.data)); (p.(loc := l1), ok)
    else (p, false)
  }

  // ----- main items -----

  function OpenCollection(p: Parser, tp: nat): (Parser, bool) {
    if |p.colStk| == STK_SIZE then (p, false)
    else
      var usage := if p.loc.usage == [] then 0 else p.loc.usage[0];
      (p.(cols := p.cols + [Collection(tp, usage, |p.colStk|)], colStk := p.colStk + [|p.cols|],
          apps := if tp == 1 then p.apps + 1 else p.apps), true)
  }

  function CloseCollection(p: Parser): (Parser, bool) {
    if p.colStk == [] then (p, false) else (p.(colStk := p.colStk[..|p.colStk| - 1]), true)
  }

  function BadRange(g: Global): bool {
    (g.logicalMin < 0 && g.logicalMax < g.logicalMin) ||
        (g.logicalMin >= 0 && ToU32(g.logicalMax) < ToU32(g.logicalMin))
  }

  /** The usages of a field: those given, the last of them as often as the count asks. */
  function Spread(us: seq<nat>, n: nat): (r: seq<nat>)
    requires us != []
    ensures |r| == n && forall i | 0 <= i < n :: r[i] == us[if i < |us| then i else |us| - 1]
  {
    seq(n, i requires 0 <= i => us[if i < |us| then i else |us| - 1])
  }

  function Max(a: nat, b: nat): nat { if a > b then a else b }

  function SetReport(p: Parser, key: (nat, nat), r: Report): Parser { p.(reports := p.reports[key := r]) }

  /** _addField */
  function AddField(p: Parser, tp: nat, flag: nat): (Parser, bool) {
    var g, key := p.glo, (tp, p.glo.reportId);
    if g.reportId >= MX_REPORTS then (p, false)
    else
      var rep := if key in p.reports then p.reports[key] else Report(0, []);
      if BadRange(g) then (SetReport(p, key, rep), false)
      else
        var sz := rep.sz + g.reportSz * g.reportCnt;
        var p1 := SetReport(p, key, rep.(sz := sz));
        if sz > MX_BITS then (p1, false)
        else if p.loc.usage == [] then (p1, true)
        else if |rep.fields| >= MX_FIELDS then (p1, false)
        else
          var f := Field(rep.sz, Spread(p.loc.usage, Max(|p.loc.usage|, g.reportCnt)), flag, g);
          (SetReport(p, key, Report(sz, rep.fields + [f])), true)
  }

  function MainItem(p: Parser, it: Item): (Parser, bool)
    requires it.Short?
  {
    if it.tag == 0xa then var (p1, ok) := OpenCollection(p, it.data % 256); (p1.(loc := NO_LOCAL), ok)
    else if it.tag == 0xc then var (p1, ok) := CloseCollection(p); (p1.(loc := NO_LOCAL), ok)
    else if it.tag == 0x8 then var (p1, ok) := AddField(p, 0, it.data); (p1.(loc := NO_LOCAL), ok)
    else if it.tag == 0x9 then var (p1, ok) := AddField(p, 1, it.data); (p1.(loc := NO_LOCAL), ok)
    else if it.tag == 0xb then var (p1, ok) := AddField(p, 2, it.data); (p1.(loc := NO_LOCAL), ok)
    else (p, false)
  }

  // ----- the whole descriptor -----

  /** Stray: an item of the reserved type 3, for which the kernel's table has no entry. */
  datatype Outcome = Done | Failed | Stray

  function ItemStep(p: Parser, it: Item): (Parser, bool)
    requires it.Short? && it.tp < 3
  {
    if it.tp == 0 then MainItem(p, it) else if it.tp == 1 then GlobalItem(p, it) else LocalItem(p, it)
  }

  /** hw_hid_parse */
  function ParseAll(p: Parser, bs: seq<Byte>): (Parser, Outcome)
    decreases |bs|
  {
    var f := Fetch(bs);
    if f == None then (p, Done)
    else
      var (it, rest) := f.value;
      if it.Long? then (p, Failed)
      else if it.tp >= 3 then (p, Stray)
      else
        var (p1, ok) := ItemStep(p, it);
        if ok then ParseAll(p1, rest) else (p1, Failed)
  }

  // ----- layout -----

  function Bits(f: Field): nat { f.glo.reportSz * f.glo.reportCnt }

  /** The fields of a report follow each other without overlap inside its size. */
  ghost predicate LaidOut(r: Report) {
    && |r.fields| <= MX_FIELDS
    && (forall i | 0 <= i < |r.fields| :: r.fields[i].off + Bits(r.fields[i]) <= r.sz &&
         r.fields[i].glo.reportSz <= 32 && r.fields[i].glo.reportCnt <= 256)
    && forall i, j | 0 <= i < j < |r.fields| :: r.fields[i].off + Bits(r.fields[i]) <= r.fields[j].off
  }

  ghost predicate SmallGlobal(g: Global) { g.reportSz <= 32 && g.reportCnt <= 256 }

  ghost predicate ParserOk(p: Parser) {
    && (forall k | k in p.reports :: LaidOut(p.reports[k]) && k.0 < 3 && k.1 < MX_REPORTS)
    && |p.stk| <= STK_SIZE && |p.colStk| <= STK_SIZE && |p.loc.usage| <= MX_USAGES
    && (forall i | 0 <= i < |p.colStk| :: p.colStk[i] < |p.cols|)
    && (forall i | 0 <= i < |p.stk| :: SmallGlobal(p.stk[i]))
  }

  /** What holds as long as no item failed. */
  ghost predicate Going(p: Parser) {
    ParserOk(p) && SmallGlobal(p.glo) && forall k | k in p.reports :: p.reports[k].sz <= MX_BITS
  }

  /** Where value idx of a field starts: the offset that _getReportUData computes. */
  function ValueOff(f: Field, idx: nat): nat { f.glo.reportSz * idx + f.off }

  /** The values of a field follow each other without overlap and fill its bits. */
  lemma ValuesFill(f: Field, i: nat, j: nat)
    requires i < j < f.glo.reportCnt
    ensures f.off <= ValueOff(f, i) && ValueOff(f, i) + f.glo.reportSz <= ValueOff(f, j)
    ensures ValueOff(f, j) + f.glo.reportSz <= ValueOff(f, f.glo.reportCnt) == f.off + Bits(f)
  {
    MulStep(i, j, f.glo.reportSz);
    MulStep(j, f.glo.reportCnt, f.glo.reportSz);
  }

  lemma AddFieldOk(p: Parser, tp: nat, flag: nat)
    requires Going(p) && tp < 3
    ensures var (p1, ok) := AddField(p, tp, flag);
            ParserOk(p1) && SmallGlobal(p1.glo) && (ok ==> Going(p1))
  {
    hide Bits, BadRange, Spread, LaidOut, ParserOk;
    if p.glo.reportId < MX_REPORTS {
      var key := (tp, p.glo.reportId);
      var rep := if key in p.reports then p.reports[key] else Report(0, []);
      SetOk(p, key);
      LaidMore(rep, Field(rep.sz, [], flag, p.glo));
    }
  }

  lemma SetOk(p: Parser, key: (nat, nat))
    requires ParserOk(p) && key.0 < 3 && key.1 < MX_REPORTS
    ensures key in p.reports ==> LaidOut(p.reports[key])
    ensures LaidOut(Report(0, [])) && forall r | LaidOut(r) :: ParserOk(SetReport(p, key, r))
  {
  }

  /** A longer report, with one field more at its old end or without. */
  lemma LaidMore(r: Report, f: Field)
    requires LaidOut(r) && f.off == r.sz && SmallGlobal(f.glo)
    ensures LaidOut(r.(sz := r.sz + Bits(f))) && Bits(f) == f.glo.reportSz * f.glo.reportCnt
    ensures forall us: seq<nat>, flag: nat | |r.fields| < MX_FIELDS ::
              LaidOut(Report(r.sz + Bits(f), r.fields + [Field(r.sz, us, flag, f.glo)]))
  {
  }

  /** A range is accepted, and then added as a whole, exactly if it fits and does not end at the
      largest word, where the counter would start over. */
  lemma {:induction false} AddUsagesOk(l: Local, n: nat, last: nat)
    requires |l.usage| <= MX_USAGES
    ensures var (l1, ok) := AddUsages(l, n, last);
            && |l1.usage| <= MX_USAGES
            && (last < 0x1_0000_0000 ==>
                 (ok <==> n > last || (last < 0xffff_ffff && |l.usage| + |Range(n, last)| <= MX_USAGES)))
            && (last < 0x1_0000_0000 && ok ==> l1 == l.(usage := l.usage + Range(n, last)))
    decreases MX_USAGES - |l.usage|
  {
    hide Range;
    if n <= last && |l.usage| < MX_USAGES {
      AddUsagesOk(l.(usage := l.usage + [n]), ToU32(n + 1), last);
      RangeFrom(l.usage, n, last);
    } else if n > last {
      assert l.usage + Range(n, last) == l.usage;
    }
  }

  lemma RangeFrom(us: seq<nat>, n: nat, last: nat)
    requires n <= last
    ensures (us + [n]) + Range(n + 1, last) == us + Range(n, last)
  {
    assert [n] + Range(n + 1, last) == Range(n, last);
  }

  /** Every accepted item keeps the layout and the limits. */
  lemma StepGoing(p: Parser, it: Item)
    requires Going(p) && it.Short? && it.tp < 3
    ensures var (p1, ok) := ItemStep(p, it); ParserOk(p1) && (ok ==> Going(p1))
  {
    hide AddField, LaidOut, AddUsages, Signed, ToI32, Paged;
    if it.tp == 0 {
      AddFieldOk(p, 0, it.data);
      AddFieldOk(p, 1, it.data);
      AddFieldOk(p, 2, it.data);
    } else if it.tp == 2 {
      AddUsagesOk(p.loc, p.loc.usageMin, Paged(p.glo, it.size, it.data));
    }
  }

  /** After any descriptor the fields of each report are in order, disjoint and inside it, and no report
      of an accepted one is longer than 131064 bits. */
  lemma {:induction false} ParseGoing(p: Parser, bs: seq<Byte>)
    requires Going(p)
    ensures var (p1, out) := ParseAll(p, bs); ParserOk(p1) && (out == Done ==> Going(p1))
    decreases |bs|
  {
    hide ItemStep, ParserOk;
    var f := Fetch(bs);
    if f.Some? && f.value.0.Short? && f.value.0.tp < 3 {
      var (p1, ok) := ItemStep(p, f.value.0);
      StepGoing(p, f.value.0);
      if ok { ParseGoing(p1, f.value.1); }
    }
  }
}
