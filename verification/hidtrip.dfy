/** Descriptors written out by the rules of section 6.2.2 of the HID 1.11 specification, and what
    kernel/hardware/hid/parse.c makes of them: exactly what was written. */
module HidTrip {
  import opened Wrappers
  import opened HidSpec

  // ----- what is to be described -----

  /** The usages of a field: one by one, as a range, or as the first of several sets between delimiters. */
  datatype Usages =
    | Listed(us: seq<nat>)
    | Ranged(lo: nat, hi: nat)
    | Either(us: seq<nat>, others: seq<nat>)

  /** A field of an input, output or feature report (tp 0, 1 and 2), written with as few bytes as its values
      allow or with full words. */
  datatype Decl = Decl(tp: nat, flag: nat, usages: Usages, glo: Global, compact: bool)

  /** Part: a field, after others that are set in a scope of their own.  Group: a collection. */
  datatype Tree =
    | Leaf
    | Part(decl: Decl, inner: Tree, rest: Tree)
    | Group(tp: nat, usage: Option<nat>, body: Tree, rest: Tree)

  function UsageSeq(u: Usages): seq<nat> {
    match u
    case Listed(us) => us
    case Ranged(lo, hi) => Range(lo, hi)
    case Either(us, _) => us
  }

  /** The fields in the order in which they come. */
  function Decls(t: Tree): seq<Decl> {
    match t
    case Leaf => []
    case Part(d, inner, rest) => Decls(inner) + [d] + Decls(rest)
    case Group(_, _, body, rest) => Decls(body) + Decls(rest)
  }

  function UsageOf(u: Option<nat>): nat { if u.Some? then u.value else 0 }

  /** The collections, each with its depth.  The low byte tells their type. */
  function Collections(t: Tree, lvl: nat): seq<Collection> {
    match t
    case Leaf => []
    case Part(_, inner, rest) => Collections(inner, lvl) + Collections(rest, lvl)
    case Group(tp, usage, body, rest) =>
      [Collection(tp % 256, UsageOf(usage), lvl)] + Collections(body, lvl + 1) + Collections(rest, lvl)
  }

  function Applications(t: Tree): nat {
    match t
    case Leaf => 0
    case Part(_, inner, rest) => Applications(inner) + Applications(rest)
    case Group(tp, _, body, rest) => (if tp % 256 == 1 then 1 else 0) + Applications(body) + Applications(rest)
  }

  /** The fields of one report. */
  function Own(ds: seq<Decl>, key: (nat, nat)): seq<Decl> {
    if ds == [] then []
    else
      var d := ds[|ds| - 1];
      Own(ds[..|ds| - 1], key) + if (d.tp, d.glo.reportId) == key then [d] else []
  }

  /** A report with these fields, one behind the other. */
  function ReportOf(ds: seq<Decl>): Report {
    if ds == [] then Report(0, [])
    else
      var d, r := ds[|ds| - 1], ReportOf(ds[..|ds| - 1]);
      var us := UsageSeq(d.usages);
      Report(r.sz + d.glo.reportSz * d.glo.reportCnt,
             r.fields + if us == [] then [] else [Field(r.sz, Spread(us, Max(|us|, d.glo.reportCnt)), d.flag, d.glo)])
  }

  // ----- how it is written -----

  /** A short item: its first byte and its data. */
  datatype Line = Line(head: Byte, data: nat)

  /** The data bytes that the first byte announces. */
  function Width(head: Byte): nat { if head % 4 == 3 then 4 else head % 4 }

  function Bytes(ls: seq<Line>): seq<Byte> {
    if ls == [] then [] else [ls[0].head] + Digits(ls[0].data, Width(ls[0].head)) + Bytes(ls[1..])
  }

  const W: nat := 0x1_0000_0000

  /** An item for an unsigned value; base is its first byte without the size. */
  function Plain(base: nat, v: nat, compact: bool): Line
    requires base <= 252 && base % 4 == 0
  {
    if compact && v < 256 then Line(base + 1, v) else if compact && v < 65536 then Line(base + 2, v)
    else Line(base + 3, v)
  }

  /** An item for a signed value. */
  function WithSign(base: nat, v: int, compact: bool): Line
    requires base <= 252 && base % 4 == 0
  {
    if compact && -0x80 <= v < 0x80 then Line(base + 1, v % 256)
    else if compact && -0x8000 <= v < 0x8000 then Line(base + 2, v % 65536)
    else Line(base + 3, ToU32(v))
  }

  /** A maximum is signed if its minimum is negative. */
  function Maximum(base: nat, low: int, v: int, compact: bool): Line
    requires base <= 252 && base % 4 == 0
  {
    if low < 0 then WithSign(base, v, compact) else Plain(base, ToU32(v), compact)
  }

  function Globals(g: Global, compact: bool): seq<Line> {
    [Plain(0x04, g.usagePg, compact), // Usage Page
     WithSign(0x14, g.logicalMin, compact), // Logical Minimum
     Maximum(0x24, g.logicalMin, g.logicalMax, compact), // Logical Maximum
     WithSign(0x34, g.physicalMin, compact), // Physical Minimum
     Maximum(0x44, g.physicalMin, g.physicalMax, compact), // Physical Maximum
     WithSign(0x54, g.unitExponent, compact), // Unit Exponent
     Plain(0x64, g.unit, compact), // Unit
     Plain(0x74, g.reportSz, compact), // Report Size
     Plain(0x94, g.reportCnt, compact)] // Report Count
    + if g.reportId == 0 then [] else [Plain(0x84, g.reportId, compact)] // Report ID
  }

  /** A usage, with its page left out if that is the current one. */
  function UsageLine(base: nat, page: nat, u: nat, compact: bool): Line
    requires base <= 252 && base % 4 == 0
  {
    if u / 65536 != page then Line(base + 3, u)
    else if compact && u % 65536 < 256 then Line(base + 1, u % 65536) else Line(base + 2, u % 65536)
  }

  function UsageLines(page: nat, us: seq<nat>, compact: bool): (r: seq<Line>)
    ensures |r| == |us|
  {
    seq(|us|, i requires 0 <= i < |us| => UsageLine(0x08, page, us[i], compact))
  }

  const OPEN := Line(0xa9, 1) // Delimiter
  const CLOSE := Line(0xa9, 0)

  function Locals(page: nat, u: Usages, compact: bool): seq<Line> {
    match u
    case Listed(us) => UsageLines(page, us, compact) // Usage
    case Ranged(lo, hi) =>
      [UsageLine(0x18, page, lo, compact), UsageLine(0x28, page, hi, compact)] // Usage Minimum, Usage Maximum
    case Either(us, others) =>
      [OPEN] + UsageLines(page, us, compact) + [CLOSE] + [OPEN] + UsageLines(page, others, compact) + [CLOSE]
  }

  /** Input, Output and Feature. */
  function MainLine(d: Decl): Line {
    Plain(if d.tp == 0 then 0x80 else if d.tp == 1 then 0x90 else 0xb0, d.flag, d.compact)
  }

  const PUSH := Line(0xa4, 0)
  const POP := Line(0xb4, 0)
  const END_COLLECTION := Line(0xc0, 0)

  /** A usage, if there is one, and Collection. */
  function Heading(tp: nat, usage: Option<nat>): seq<Line> {
    (if usage.Some? then [Line(0x0b, usage.value)] else []) + [Plain(0xa0, tp, true)]
  }

  /** The fields of the inner tree are set between Push and Pop; the field itself has the values from before. */
  function Lines(t: Tree): seq<Line> {
    match t
    case Leaf => []
    case Part(d, inner, rest) =>
      Globals(d.glo, d.compact) + [PUSH] + Lines(inner) + [POP]
      + Locals(d.glo.usagePg, d.usages, d.compact) + [MainLine(d)] + Lines(rest)
    case Group(tp, usage, body, rest) =>
      Heading(tp, usage) + Lines(body) + [END_COLLECTION] + Lines(rest)
  }

  // ----- what may be described -----

  predicate Int32(v: int) { -0x8000_0000 <= v < 0x8000_0000 }

  predicate GlobalFine(g: Global) {
    && g.usagePg < 65536 && Int32(g.logicalMin) && Int32(g.logicalMax) && Int32(g.physicalMin) && Int32(g.physicalMax)
    && Int32(g.unitExponent) && g.unit < W && g.reportSz <= 32 && g.reportId < MX_REPORTS && g.reportCnt <= 256
    && LimitsOrdered(g)
  }

  /** A negative minimum makes the limits signed numbers, any other makes them words. */
  predicate LimitsOrdered(g: Global) {
    if g.logicalMin < 0 then g.logicalMin <= g.logicalMax else g.logicalMin <= g.logicalMax || g.logicalMax < 0
  }

  predicate Words(us: seq<nat>) { forall i | 0 <= i < |us| :: us[i] < W }

  predicate UsagesFine(u: Usages) {
    match u
    case Listed(us) => Words(us) && |us| <= MX_USAGES
    case Ranged(lo, hi) => lo <= hi < W - 1 && hi - lo < MX_USAGES
    case Either(us, others) => Words(us) && Words(others) && |us| <= MX_USAGES
  }

  predicate DeclFine(d: Decl) { d.tp < 3 && d.flag < W && UsagesFine(d.usages) && GlobalFine(d.glo) }

  /** The report ID that is current after the tree. */
  function IdAfter(t: Tree, id: nat): nat {
    match t
    case Leaf => id
    case Part(d, _, rest) => IdAfter(rest, d.glo.reportId)
    case Group(_, _, body, rest) => IdAfter(rest, IdAfter(body, id))
  }

  /** Push and Collection nest no deeper than the parser's stacks, and only fields at the front, where no
      report ID was given, are without one. */
  predicate TreeFine(t: Tree, stk: nat, cols: nat, id: nat) {
    match t
    case Leaf => true
    case Part(d, inner, rest) =>
      && DeclFine(d) && stk < STK_SIZE && (d.glo.reportId == 0 ==> id == 0)
      && TreeFine(inner, stk + 1, cols, d.glo.reportId) && TreeFine(rest, stk, cols, d.glo.reportId)
    case Group(tp, usage, body, rest) =>
      && tp < W && UsageOf(usage) < W && cols < STK_SIZE
      && TreeFine(body, stk, cols + 1, id) && TreeFine(rest, stk, cols, IdAfter(body, id))
  }

  predicate Room(r: Report) { r.sz <= MX_BITS && |r.fields| <= MX_FIELDS }

  /** No report is too long or has too many fields. */
  ghost predicate Limited(ds: seq<Decl>) {
    forall key: (nat, nat) :: Room(ReportOf(Own(ds, key)))
  }

  // ----- the items one by one -----

  function ItemOf(l: Line): Item { Short(l.head / 4 % 4, l.head / 16, Width(l.head), l.data) }

  predicate LineOk(l: Line) { l.head < 240 && l.head / 4 % 4 < 3 && l.data < Power(Width(l.head)) }

  function Step(p: Parser, l: Line): (Parser, bool)
    requires LineOk(l)
  {
    ItemStep(p, ItemOf(l))
  }

  /** The parser accepts the items and goes from p to p'. */
  ghost predicate Runs(p: Parser, ls: seq<Line>, p': Parser)
    decreases |ls|
  {
    if ls == [] then p' == p
    else LineOk(ls[0]) && Step(p, ls[0]).1 && Runs(Step(p, ls[0]).0, ls[1..], p')
  }

  lemma WidthPowers()
    ensures Power(0) == 1 && Power(1) == 256 && Power(2) == 65536 && Power(4) == W
  {
    assert Power(3) == 0x100_0000;
  }

  lemma LineBytes(l: Line)
    requires LineOk(l)
    ensures ShortOk(ItemOf(l)) && Encode(ItemOf(l)) == [l.head] + Digits(l.data, Width(l.head))
  {
    hide Digits, Power;
    assert l.head == 16 * (l.head / 16) + 4 * (l.head / 4 % 4) + l.head % 4;
  }

  /** Parsing the bytes is running the items. */
  lemma {:induction false} ParseLines(p: Parser, ls: seq<Line>, p': Parser)
    requires Runs(p, ls, p')
    ensures ParseAll(p, Bytes(ls)) == (p', Done)
    decreases |ls|
  {
    hide ItemStep, Encode, ShortOk, Fetch, Width, Digits, Power;
    if ls == [] {
      FetchNothing();
    } else {
      LineBytes(ls[0]);
      FetchEncode(ItemOf(ls[0]), Bytes(ls[1..]));
      ParseLines(Step(p, ls[0]).0, ls[1..], p');
    }
  }

  lemma FetchNothing()
    ensures Fetch([]) == None
  {
  }

  lemma {:induction false} RunsThen(p: Parser, a: seq<Line>, p1: Parser, b: seq<Line>, p2: Parser)
    requires Runs(p, a, p1) && Runs(p1, b, p2)
    ensures Runs(p, a + b, p2)
    decreases |a|
  {
    hide Step, LineOk;
    if a == [] {
      assert a + b == b;
    } else {
      assert (a + b)[1..] == a[1..] + b;
      RunsThen(Step(p, a[0]).0, a[1..], p1, b, p2);
    }
  }

  lemma {:induction false} RunsOne(p: Parser, l: Line)
    requires LineOk(l) && Step(p, l).1
    ensures Runs(p, [l], Step(p, l).0)
  {
    hide Step, LineOk;
    assert [l][1..] == [];
  }

  /** One item more of a list. */
  lemma {:induction false} RunsOn(p: Parser, ls: seq<Line>, k: nat, p1: Parser)
    requires k < |ls| && Runs(p, ls[..k], p1) && LineOk(ls[k]) && Step(p1, ls[k]).1
    ensures Runs(p, ls[..k + 1], Step(p1, ls[k]).0)
  {
    hide Step, LineOk, Runs;
    RunsOne(p1, ls[k]);
    RunsThen(p, ls[..k], p1, [ls[k]], Step(p1, ls[k]).0);
    assert ls[..k + 1] == ls[..k] + [ls[k]];
  }

  // ----- global items -----

  lemma HeadParts(base: nat, k: nat)
    requires base % 4 == 0 && k < 4
    ensures (base + k) / 4 % 4 == base % 16 / 4 && (base + k) / 16 == base / 16 && (base + k) % 4 == k
  {
    var b := base / 4;
    assert base + k == 4 * b + k && (base + k) / 4 == b;
  }

  /** The parts of an item with one, two or four data bytes. */
  lemma ItemParts(base: nat, k: nat, v: nat)
    requires base <= 236 && base % 4 == 0 && base % 16 < 12 && 0 < k < 4
    requires v < if k == 1 then 256 else if k == 2 then 65536 else W
    ensures var l := Line(base + k, v);
            && LineOk(l) && ItemOf(l).tp == base % 16 / 4 && ItemOf(l).tag == base / 16
            && Width(l.head) == (if k == 3 then 4 else k)
  {
    hide Power;
    WidthPowers();
    HeadParts(base, k);
  }

  lemma SignedBack(v: int, base: nat, compact: bool)
    requires Int32(v) && base <= 236 && base % 16 == 4
    ensures var l := WithSign(base, v, compact);
            LineOk(l) && ItemOf(l).tp == 1 && ItemOf(l).tag == base / 16 && Signed(Width(l.head), l.data) == v
  {
    hide LineOk, Width;
    var l := WithSign(base, v, compact);
    ItemParts(base, l.head - base, l.data);
  }

  lemma PlainBack(v: nat, base: nat, compact: bool)
    requires v < W && base <= 236 && base % 4 == 0 && base % 16 < 12
    ensures var l := Plain(base, v, compact);
            LineOk(l) && ItemOf(l).tp == base % 16 / 4 && ItemOf(l).tag == base / 16 && l.data == v && Width(l.head) > 0
  {
    hide LineOk, Width;
    var l := Plain(base, v, compact);
    ItemParts(base, l.head - base, v);
  }

  lemma WordBack(v: int)
    requires Int32(v)
    ensures ToU32(v) < W && ToI32(ToU32(v)) == v
  {
  }

  lemma Minima(p: Parser, g: Global, c: bool)
    requires GlobalFine(g)
    ensures var l := WithSign(0x14, g.logicalMin, c);
            LineOk(l) && Step(p, l) == (p.(glo := p.glo.(logicalMin := g.logicalMin)), true)
    ensures var l := WithSign(0x34, g.physicalMin, c);
            LineOk(l) && Step(p, l) == (p.(glo := p.glo.(physicalMin := g.physicalMin)), true)
    ensures var l := WithSign(0x54, g.unitExponent, c);
            LineOk(l) && Step(p, l) == (p.(glo := p.glo.(unitExponent := g.unitExponent)), true)
  {
    hide LineOk, Signed, ToI32, ToU32, WithSign, Width;
    SignedBack(g.logicalMin, 0x14, c);
    SignedBack(g.physicalMin, 0x34, c);
    SignedBack(g.unitExponent, 0x54, c);
  }

  lemma Maxima(p: Parser, g: Global, c: bool)
    requires GlobalFine(g)
    ensures var l := Maximum(0x24, g.logicalMin, g.logicalMax, c);
            LineOk(l) && (p.glo.logicalMin == g.logicalMin ==>
                           Step(p, l) == (p.(glo := p.glo.(logicalMax := g.logicalMax)), true))
    ensures var l := Maximum(0x44, g.physicalMin, g.physicalMax, c);
            LineOk(l) && (p.glo.physicalMin == g.physicalMin ==>
                           Step(p, l) == (p.(glo := p.glo.(physicalMax := g.physicalMax)), true))
  {
    hide LineOk, Signed, ToI32, ToU32, WithSign, Plain, Width;
    WordBack(g.logicalMax);
    WordBack(g.physicalMax);
    SignedBack(g.logicalMax, 0x24, c);
    SignedBack(g.physicalMax, 0x44, c);
    PlainBack(ToU32(g.logicalMax), 0x24, c);
    PlainBack(ToU32(g.physicalMax), 0x44, c);
  }

  lemma Others(p: Parser, g: Global, c: bool)
    requires GlobalFine(g)
    ensures var l := Plain(0x04, g.usagePg, c);
            LineOk(l) && Step(p, l) == (p.(glo := p.glo.(usagePg := g.usagePg)), true)
    ensures var l := Plain(0x64, g.unit, c); LineOk(l) && Step(p, l) == (p.(glo := p.glo.(unit := g.unit)), true)
    ensures var l := Plain(0x74, g.reportSz, c);
            LineOk(l) && Step(p, l) == (p.(glo := p.glo.(reportSz := g.reportSz)), true)
    ensures var l := Plain(0x94, g.reportCnt, c);
            LineOk(l) && Step(p, l) == (p.(glo := p.glo.(reportCnt := g.reportCnt)), true)
    ensures g.reportId != 0 ==>
              var l := Plain(0x84, g.reportId, c);
              LineOk(l) && Step(p, l) == (p.(glo := p.glo.(reportId := g.reportId)), true)
  {
    hide LineOk, Signed, ToI32, ToU32, Plain, Width;
    PlainBack(g.usagePg, 0x04, c);
    PlainBack(g.unit, 0x64, c);
    PlainBack(g.reportSz, 0x74, c);
    PlainBack(g.reportCnt, 0x94, c);
    PlainBack(g.reportId, 0x84, c);
  }

  lemma {:induction false} RunsNone(p: Parser, ls: seq<Line>)
    ensures Runs(p, ls[..0], p)
  {
  }

  lemma {:induction false} FirstGlobals(p: Parser, g: Global, c: bool)
    requires GlobalFine(g)
    ensures Runs(p, Globals(g, c)[..5], p.(glo := p.glo.(usagePg := g.usagePg, logicalMin := g.logicalMin,
                   logicalMax := g.logicalMax, physicalMin := g.physicalMin, physicalMax := g.physicalMax)))
  {
    hide Step, LineOk, Runs, GlobalFine, ToU32, Plain, WithSign, Maximum;
    var ls := Globals(g, c);
    var p1 := p.(glo := p.glo.(usagePg := g.usagePg));
    var p2 := p1.(glo := p1.glo.(logicalMin := g.logicalMin));
    var p3 := p2.(glo := p2.glo.(logicalMax := g.logicalMax));
    var p4 := p3.(glo := p3.glo.(physicalMin := g.physicalMin));
    Others(p, g, c);
    Minima(p1, g, c);
    Maxima(p2, g, c);
    Minima(p3, g, c);
    Maxima(p4, g, c);
    RunsNone(p, ls);
    RunsOn(p, ls, 0, p);
    RunsOn(p, ls, 1, p1);
    RunsOn(p, ls, 2, p2);
    RunsOn(p, ls, 3, p3);
    RunsOn(p, ls, 4, p4);
  }

  /** Whatever the values before, afterwards they are these. */
  lemma {:induction false} GlobalsRun(p: Parser, g: Global, c: bool)
    requires GlobalFine(g) && (g.reportId == 0 ==> p.glo.reportId == 0)
    ensures Runs(p, Globals(g, c), p.(glo := g))
  {
    hide Step, LineOk, Runs, GlobalFine, ToU32, Plain, WithSign, Maximum;
    FirstGlobals(p, g, c);
    var ls := Globals(g, c);
    var p5 := p.(glo := p.glo.(usagePg := g.usagePg, logicalMin := g.logicalMin, logicalMax := g.logicalMax,
                               physicalMin := g.physicalMin, physicalMax := g.physicalMax));
    var p6 := p5.(glo := p5.glo.(unitExponent := g.unitExponent));
    var p7 := p6.(glo := p6.glo.(unit := g.unit));
    var p8 := p7.(glo := p7.glo.(reportSz := g.reportSz));
    var p9 := p8.(glo := p8.glo.(reportCnt := g.reportCnt));
    Minima(p5, g, c);
    Others(p6, g, c);
    Others(p7, g, c);
    Others(p8, g, c);
    Others(p9, g, c);
    RunsOn(p, ls, 5, p5);
    RunsOn(p, ls, 6, p6);
    RunsOn(p, ls, 7, p7);
    RunsOn(p, ls, 8, p8);
    if g.reportId == 0 {
      assert ls[..9] == ls;
    } else {
      RunsOn(p, ls, 9, p9);
      assert ls[..10] == ls;
    }
  }

  lemma Scopes(p: Parser)
    ensures LineOk(PUSH) && (|p.stk| < STK_SIZE ==> Step(p, PUSH) == (p.(stk := p.stk + [p.glo]), true))
    ensures LineOk(POP) && (p.stk != [] ==>
                             Step(p, POP) == (p.(glo := p.stk[|p.stk| - 1], stk := p.stk[..|p.stk| - 1]), true))
  {
    WidthPowers();
  }

  // ----- local items -----

  lemma PageParts(u: nat)
    requires u < W
    ensures ToU32(65536 * (u / 65536) + u % 65536) == u
  {
  }

  lemma UsageBack(u: nat, base: nat, g: Global, compact: bool)
    requires u < W && g.usagePg < 65536 && base <= 236 && base % 16 == 8
    ensures var l := UsageLine(base, g.usagePg, u, compact);
            && LineOk(l) && ItemOf(l).tp == 2 && ItemOf(l).tag == base / 16 && Width(l.head) > 0
            && Paged(g, Width(l.head), l.data) == u
  {
    hide LineOk, Width;
    var l := UsageLine(base, g.usagePg, u, compact);
    ItemParts(base, l.head - base, l.data);
    PageParts(u);
  }

  /** A usage that is not ignored. */
  lemma UsageRun(p: Parser, u: nat, c: bool)
    requires u < W && p.glo.usagePg < 65536 && p.loc.branch <= 1 && |p.loc.usage| < MX_USAGES
    ensures var l := UsageLine(0x08, p.glo.usagePg, u, c);
            LineOk(l) && Step(p, l) == (p.(loc := p.loc.(usage := p.loc.usage + [u])), true)
  {
    hide LineOk, UsageLine, Paged, Width;
    UsageBack(u, 0x08, p.glo, c);
  }

  lemma UsageIgnored(p: Parser, u: nat, c: bool)
    requires u < W && p.glo.usagePg < 65536 && p.loc.branch > 1
    ensures var l := UsageLine(0x08, p.glo.usagePg, u, c); LineOk(l) && Step(p, l) == (p, true)
  {
    hide LineOk, UsageLine, Paged, Width;
    UsageBack(u, 0x08, p.glo, c);
  }

  lemma {:induction false} UsagesRun(p: Parser, us: seq<nat>, c: bool)
    requires Words(us) && p.glo.usagePg < 65536 && p.loc.branch <= 1 && |p.loc.usage| + |us| <= MX_USAGES
    ensures Runs(p, UsageLines(p.glo.usagePg, us, c), p.(loc := p.loc.(usage := p.loc.usage + us)))
    decreases |us|
  {
    hide Step, LineOk, UsageLine;
    var pg := p.glo.usagePg;
    var ls := UsageLines(pg, us, c);
    if us == [] {
      assert p.loc.usage + us == p.loc.usage;
    } else {
      UsageRun(p, us[0], c);
      var p1 := p.(loc := p.loc.(usage := p.loc.usage + [us[0]]));
      UsagesRun(p1, us[1..], c);
      assert ls[1..] == UsageLines(pg, us[1..], c);
      assert p.loc.usage + [us[0]] + us[1..] == p.loc.usage + us;
    }
  }

  lemma {:induction false} UsagesIgnored(p: Parser, us: seq<nat>, c: bool)
    requires Words(us) && p.glo.usagePg < 65536 && p.loc.branch > 1
    ensures Runs(p, UsageLines(p.glo.usagePg, us, c), p)
    decreases |us|
  {
    hide Step, LineOk, UsageLine;
    if us != [] {
      UsageIgnored(p, us[0], c);
      UsagesIgnored(p, us[1..], c);
      assert UsageLines(p.glo.usagePg, us, c)[1..] == UsageLines(p.glo.usagePg, us[1..], c);
    }
  }

  lemma {:induction false} RangeRun(p: Parser, lo: nat, hi: nat, c: bool)
    requires lo <= hi < W - 1 && hi - lo < MX_USAGES && p.loc == NO_LOCAL && p.glo.usagePg < 65536
    ensures Runs(p, Locals(p.glo.usagePg, Ranged(lo, hi), c),
                 p.(loc := NO_LOCAL.(usage := Range(lo, hi), usageMin := lo)))
  {
    hide LineOk, UsageLine, Paged, Width, Runs, AddUsages;
    var p1, p2 := p.(loc := p.loc.(usageMin := lo)), p.(loc := NO_LOCAL.(usage := Range(lo, hi), usageMin := lo));
    var l, m := UsageLine(0x18, p.glo.usagePg, lo, c), UsageLine(0x28, p.glo.usagePg, hi, c);
    UsageBack(lo, 0x18, p.glo, c);
    UsageBack(hi, 0x28, p.glo, c);
    AddUsagesOk(p1.loc, lo, hi);
    assert p1.loc.usage + Range(lo, hi) == Range(lo, hi);
    RunsOne(p, l);
    RunsOne(p1, m);
    RunsThen(p, [l], p1, [m], p2);
    assert [l, m] == [l] + [m];
  }

  lemma Delimits(p: Parser)
    ensures LineOk(OPEN) && (p.loc.depth == 0 ==>
              Step(p, OPEN) == (p.(loc := p.loc.(depth := 1, branch := p.loc.branch + 1)), true))
    ensures LineOk(CLOSE) && (p.loc.depth == 1 ==> Step(p, CLOSE) == (p.(loc := p.loc.(depth := 0)), true))
  {
    hide Power;
    WidthPowers();
  }

  lemma {:induction false} EitherRun(p: Parser, us: seq<nat>, others: seq<nat>, c: bool)
    requires Words(us) && Words(others) && |us| <= MX_USAGES && p.glo.usagePg < 65536 && p.loc == NO_LOCAL
    ensures Runs(p, Locals(p.glo.usagePg, Either(us, others), c), p.(loc := NO_LOCAL.(usage := us, branch := 2)))
  {
    hide Step, LineOk, Runs, UsageLines;
    var pg := p.glo.usagePg;
    var p1 := p.(loc := p.loc.(depth := 1, branch := 1));
    var p2 := p1.(loc := p1.loc.(usage := us));
    var p3 := p2.(loc := p2.loc.(depth := 0));
    var p4 := p3.(loc := p3.loc.(depth := 1, branch := 2));
    var p5 := p4.(loc := p4.loc.(depth := 0));
    Delimits(p);
    RunsOne(p, OPEN);
    UsagesRun(p1, us, c);
    assert p1.loc.usage + us == us;
    RunsThen(p, [OPEN], p1, UsageLines(pg, us, c), p2);
    Delimits(p2);
    RunsOne(p2, CLOSE);
    RunsThen(p, [OPEN] + UsageLines(pg, us, c), p2, [CLOSE], p3);
    Delimits(p3);
    RunsOne(p3, OPEN);
    RunsThen(p, [OPEN] + UsageLines(pg, us, c) + [CLOSE], p3, [OPEN], p4);
    UsagesIgnored(p4, others, c);
    RunsThen(p, [OPEN] + UsageLines(pg, us, c) + [CLOSE] + [OPEN], p4, UsageLines(pg, others, c), p4);
    Delimits(p4);
    RunsOne(p4, CLOSE);
    RunsThen(p, [OPEN] + UsageLines(pg, us, c) + [CLOSE] + [OPEN] + UsageLines(pg, others, c), p4, [CLOSE], p5);
  }

  /** What the usages of a field leave. */
  function LocalOf(u: Usages): Local {
    match u
    case Listed(us) => Local(us, 0, 0, 0)
    case Ranged(lo, hi) => Local(Range(lo, hi), lo, 0, 0)
    case Either(us, _) => Local(us, 0, 0, 2)
  }

  lemma {:induction false} LocalsRun(p: Parser, u: Usages, c: bool)
    requires UsagesFine(u) && p.glo.usagePg < 65536 && p.loc == NO_LOCAL
    ensures Runs(p, Locals(p.glo.usagePg, u, c), p.(loc := LocalOf(u)))
    ensures LocalOf(u).usage == UsageSeq(u)
  {
    hide Runs, UsageLines;
    match u
    case Listed(us) =>
      UsagesRun(p, us, c);
      assert p.loc.usage + us == us;
    case Ranged(lo, hi) => RangeRun(p, lo, hi, c);
    case Either(us, others) => EitherRun(p, us, others, c);
  }

  // ----- main items -----

  function Held(reports: map<(nat, nat), Report>, key: (nat, nat)): Report {
    if key in reports then reports[key] else Report(0, [])
  }

  function Longer(r: Report, d: Decl): Report {
    var us := UsageSeq(d.usages);
    Report(r.sz + d.glo.reportSz * d.glo.reportCnt,
           r.fields + if us == [] then [] else [Field(r.sz, Spread(us, Max(|us|, d.glo.reportCnt)), d.flag, d.glo)])
  }

  /** One field more. */
  function File(reports: map<(nat, nat), Report>, d: Decl): map<(nat, nat), Report> {
    var key := (d.tp, d.glo.reportId);
    reports[key := Longer(Held(reports, key), d)]
  }

  lemma {:induction false} MainRun(p: Parser, d: Decl)
    requires DeclFine(d) && p.glo == d.glo && p.loc.usage == UsageSeq(d.usages)
    requires Room(Longer(Held(p.reports, (d.tp, d.glo.reportId)), d))
    ensures Runs(p, [MainLine(d)], p.(reports := File(p.reports, d), loc := NO_LOCAL))
  {
    hide LineOk, Runs, Plain, Width, BadRange, Spread, UsageSeq, Max, UsagesFine;
    PlainBack(d.flag, 0x80, d.compact);
    PlainBack(d.flag, 0x90, d.compact);
    PlainBack(d.flag, 0xb0, d.compact);
    FieldAdded(p, d);
    RunsOne(p, MainLine(d));
  }

  lemma RangeIs(g: Global)
    requires Int32(g.logicalMin) && Int32(g.logicalMax)
    ensures BadRange(g) <==> !LimitsOrdered(g)
  {
  }

  lemma FieldAdded(p: Parser, d: Decl)
    requires DeclFine(d) && p.glo == d.glo && p.loc.usage == UsageSeq(d.usages)
    requires Room(Longer(Held(p.reports, (d.tp, d.glo.reportId)), d))
    ensures AddField(p, d.tp, d.flag) == (p.(reports := File(p.reports, d)), true)
  {
    hide Spread, UsageSeq, Max, UsagesFine, BadRange, LimitsOrdered;
    RangeIs(d.glo);
    var rep := Held(p.reports, (d.tp, d.glo.reportId));
    assert rep.fields + [] == rep.fields;
  }

  /** At the start of a collection. */
  function Within(p: Parser, tp: nat, usage: Option<nat>): Parser {
    p.(cols := p.cols + [Collection(tp % 256, UsageOf(usage), |p.colStk|)], colStk := p.colStk + [|p.cols|],
       apps := p.apps + if tp % 256 == 1 then 1 else 0)
  }

  lemma CollectionSteps(p: Parser, tp: nat, usage: nat)
    requires tp < W && usage < W && p.loc == NO_LOCAL && |p.colStk| < STK_SIZE
    ensures var l := Line(0x0b, usage);
            LineOk(l) && Step(p, l) == (p.(loc := NO_LOCAL.(usage := [usage])), true)
    ensures var l := Plain(0xa0, tp, true);
            LineOk(l) && Step(p.(loc := NO_LOCAL.(usage := [usage])), l) == (Within(p, tp, Some(usage)), true)
    ensures var l := Plain(0xa0, tp, true); LineOk(l) && Step(p, l) == (Within(p, tp, None), true)
  {
    hide Power, Plain;
    WidthPowers();
    PlainBack(tp, 0xa0, true);
    assert p.loc.usage + [usage] == [usage];
  }

  lemma {:induction false} CollectionRun(p: Parser, tp: nat, usage: Option<nat>)
    requires tp < W && UsageOf(usage) < W && p.loc == NO_LOCAL && |p.colStk| < STK_SIZE
    ensures Runs(p, Heading(tp, usage), Within(p, tp, usage))
  {
    hide Runs, Step, LineOk, Plain, Within;
    var l := Plain(0xa0, tp, true);
    CollectionSteps(p, tp, UsageOf(usage));
    if usage.Some? {
      var p1 := p.(loc := NO_LOCAL.(usage := [usage.value]));
      RunsOne(p, Line(0x0b, usage.value));
      RunsOne(p1, l);
      RunsThen(p, [Line(0x0b, usage.value)], p1, [l], Within(p, tp, usage));
    } else {
      RunsOne(p, l);
      assert Heading(tp, usage) == [l];
    }
  }

  lemma {:induction false} EndRun(p: Parser)
    requires p.colStk != [] && p.loc == NO_LOCAL
    ensures Runs(p, [END_COLLECTION], p.(colStk := p.colStk[..|p.colStk| - 1]))
  {
    hide Power, Runs;
    WidthPowers();
    assert LineOk(END_COLLECTION) && Step(p, END_COLLECTION) == (p.(colStk := p.colStk[..|p.colStk| - 1]), true);
    RunsOne(p, END_COLLECTION);
  }

  // ----- the whole tree -----

  function FileAll(reports: map<(nat, nat), Report>, ds: seq<Decl>): map<(nat, nat), Report> {
    if ds == [] then reports else File(FileAll(reports, ds[..|ds| - 1]), ds[|ds| - 1])
  }

  lemma {:induction false} FileJoin(reports: map<(nat, nat), Report>, a: seq<Decl>, b: seq<Decl>)
    ensures FileAll(reports, a + b) == FileAll(FileAll(reports, a), b)
  {
    hide File;
    if b == [] {
      assert a + b == a;
    } else {
      var n := |b| - 1;
      assert (a + b)[..|a + b| - 1] == a + b[..n] && (a + b)[|a + b| - 1] == b[n];
      FileJoin(reports, a, b[..n]);
    }
  }

  /** No report becomes too long on the way. */
  ghost predicate AllRoom(reports: map<(nat, nat), Report>, ds: seq<Decl>) {
    forall n, key: (nat, nat) | 0 <= n <= |ds| :: Room(Held(FileAll(reports, ds[..n]), key))
  }

  lemma {:induction false} RoomParts(reports: map<(nat, nat), Report>, a: seq<Decl>, b: seq<Decl>)
    requires AllRoom(reports, a + b)
    ensures AllRoom(reports, a) && AllRoom(FileAll(reports, a), b)
  {
    hide FileAll, Room, Held;
    forall n, key: (nat, nat) | 0 <= n <= |a| ensures Room(Held(FileAll(reports, a[..n]), key)) {
      assert (a + b)[..n] == a[..n];
    }
    forall n, key: (nat, nat) | 0 <= n <= |b| ensures Room(Held(FileAll(FileAll(reports, a), b[..n]), key)) {
      assert (a + b)[..|a| + n] == a + b[..n];
      FileJoin(reports, a, b[..n]);
    }
  }

  function GloAfter(t: Tree, g: Global): Global {
    match t
    case Leaf => g
    case Part(d, _, rest) => GloAfter(rest, d.glo)
    case Group(_, _, body, rest) => GloAfter(rest, GloAfter(body, g))
  }

  lemma {:induction false} IdIs(t: Tree, g: Global)
    ensures GloAfter(t, g).reportId == IdAfter(t, g.reportId)
  {
    match t
    case Leaf =>
    case Part(d, _, rest) => IdIs(rest, d.glo);
    case Group(_, _, body, rest) => IdIs(body, g); IdIs(rest, GloAfter(body, g));
  }

  /** The parser after the lines of the tree. */
  function Past(p: Parser, t: Tree): Parser {
    p.(glo := GloAfter(t, p.glo), cols := p.cols + Collections(t, |p.colStk|), apps := p.apps + Applications(t),
       reports := FileAll(p.reports, Decls(t)))
  }

  lemma {:induction false} LeafRun(p: Parser)
    ensures Runs(p, Lines(Leaf), Past(p, Leaf))
  {
    assert p.cols + Collections(Leaf, |p.colStk|) == p.cols;
  }

  /** Before the inner tree of a field, and behind the field. */
  function Inside(p: Parser, d: Decl): Parser { p.(glo := d.glo, stk := p.stk + [d.glo]) }

  function Behind(p: Parser, d: Decl, inner: Tree): Parser {
    var q := Past(Inside(p, d), inner);
    q.(glo := d.glo, stk := p.stk, reports := File(q.reports, d))
  }

  lemma {:induction false} FieldRun(p: Parser, d: Decl, inner: Tree)
    requires p.loc == NO_LOCAL && DeclFine(d) && |p.stk| < STK_SIZE && (d.glo.reportId == 0 ==> p.glo.reportId == 0)
    requires Runs(Inside(p, d), Lines(inner), Past(Inside(p, d), inner))
    requires Room(Held(Behind(p, d, inner).reports, (d.tp, d.glo.reportId)))
    ensures Runs(p, Globals(d.glo, d.compact) + [PUSH] + Lines(inner) + [POP]
                    + Locals(d.glo.usagePg, d.usages, d.compact) + [MainLine(d)], Behind(p, d, inner))
  {
    hide Runs, Globals, Locals, MainLine, Lines, Step, LineOk, GlobalFine, UsagesFine, Decls, Collections, Applications,
         FileAll, GloAfter, Longer, UsageSeq, LocalOf, Room;
    var a1, q1 := p.(glo := d.glo), Inside(p, d);
    var b := Past(q1, inner);
    var a2 := b.(glo := d.glo, stk := p.stk);
    var a3 := a2.(loc := LocalOf(d.usages));
    var gs, us := Globals(d.glo, d.compact), Locals(d.glo.usagePg, d.usages, d.compact);
    GlobalsRun(p, d.glo, d.compact);
    Scopes(a1);
    RunsOne(a1, PUSH);
    RunsThen(p, gs, a1, [PUSH], q1);
    RunsThen(p, gs + [PUSH], q1, Lines(inner), b);
    Scopes(b);
    assert b.stk[..|b.stk| - 1] == p.stk;
    RunsOne(b, POP);
    RunsThen(p, gs + [PUSH] + Lines(inner), b, [POP], a2);
    PageFine(d);
    LocalsRun(a2, d.usages, d.compact);
    RunsThen(p, gs + [PUSH] + Lines(inner) + [POP], a2, us, a3);
    MainRun(a3, d);
    RunsThen(p, gs + [PUSH] + Lines(inner) + [POP] + us, a3, [MainLine(d)], Behind(p, d, inner));
  }

  lemma PageFine(d: Decl)
    requires DeclFine(d)
    ensures d.glo.usagePg < 65536
  {
  }

  lemma {:induction false} PartRun(p: Parser, d: Decl, inner: Tree, rest: Tree)
    requires p.loc == NO_LOCAL && DeclFine(d) && |p.stk| < STK_SIZE && (d.glo.reportId == 0 ==> p.glo.reportId == 0)
    requires Runs(Inside(p, d), Lines(inner), Past(Inside(p, d), inner))
    requires Room(Held(Behind(p, d, inner).reports, (d.tp, d.glo.reportId)))
    requires Runs(Behind(p, d, inner), Lines(rest), Past(Behind(p, d, inner), rest))
    ensures Runs(p, Lines(Part(d, inner, rest)), Past(p, Part(d, inner, rest)))
  {
    hide Runs, Globals, Locals, MainLine, DeclFine, Room, File;
    FieldRun(p, d, inner);
    RunsThen(p, Globals(d.glo, d.compact) + [PUSH] + Lines(inner) + [POP]
                + Locals(d.glo.usagePg, d.usages, d.compact) + [MainLine(d)], Behind(p, d, inner),
             Lines(rest), Past(Behind(p, d, inner), rest));
    BehindIs(p, d, inner, rest);
  }

  lemma BehindIs(p: Parser, d: Decl, inner: Tree, rest: Tree)
    ensures Past(Behind(p, d, inner), rest) == Past(p, Part(d, inner, rest))
  {
    hide File, FileAll;
    var n := |p.colStk|;
    assert p.cols + Collections(inner, n) + Collections(rest, n) == p.cols
        + (Collections(inner, n) + Collections(rest, n));
    FileJoin(p.reports, Decls(inner) + [d], Decls(rest));
    FileNext(p.reports, Decls(inner), d);
  }

  lemma {:induction false} FileNext(reports: map<(nat, nat), Report>, ds: seq<Decl>, d: Decl)
    ensures FileAll(reports, ds + [d]) == File(FileAll(reports, ds), d)
  {
    hide File;
    assert (ds + [d])[..|ds + [d]| - 1] == ds;
  }

  /** Behind a collection. */
  function Beyond(p: Parser, tp: nat, usage: Option<nat>, body: Tree): Parser {
    Past(Within(p, tp, usage), body).(colStk := p.colStk)
  }

  lemma {:induction false} GroupRun(p: Parser, tp: nat, usage: Option<nat>, body: Tree, rest: Tree)
    requires p.loc == NO_LOCAL && tp < W && UsageOf(usage) < W && |p.colStk| < STK_SIZE
    requires Runs(Within(p, tp, usage), Lines(body), Past(Within(p, tp, usage), body))
    requires Runs(Beyond(p, tp, usage, body), Lines(rest), Past(Beyond(p, tp, usage, body), rest))
    ensures Runs(p, Lines(Group(tp, usage, body, rest)), Past(p, Group(tp, usage, body, rest)))
  {
    hide Runs, Beyond, Within, Past, Heading;
    var head := Heading(tp, usage);
    var q, b, r := Within(p, tp, usage), Past(Within(p, tp, usage), body), Beyond(p, tp, usage, body);
    CollectionRun(p, tp, usage);
    RunsThen(p, head, q, Lines(body), b);
    BeyondRun(p, tp, usage, body);
    RunsThen(p, head + Lines(body), b, [END_COLLECTION], r);
    RunsThen(p, head + Lines(body) + [END_COLLECTION], r, Lines(rest), Past(r, rest));
    BeyondIs(p, tp, usage, body, rest);
  }

  lemma BeyondRun(p: Parser, tp: nat, usage: Option<nat>, body: Tree)
    requires p.loc == NO_LOCAL
    ensures Runs(Past(Within(p, tp, usage), body), [END_COLLECTION], Beyond(p, tp, usage, body))
  {
    hide Runs, FileAll, Decls, Collections, Applications, GloAfter;
    var b := Past(Within(p, tp, usage), body);
    assert b.colStk[..|b.colStk| - 1] == p.colStk;
    EndRun(b);
  }

  lemma BeyondIs(p: Parser, tp: nat, usage: Option<nat>, body: Tree, rest: Tree)
    ensures Past(Beyond(p, tp, usage, body), rest) == Past(p, Group(tp, usage, body, rest))
  {
    hide FileAll;
    Regroup(p.cols, [Collection(tp % 256, UsageOf(usage), |p.colStk|)], Collections(body, |p.colStk| + 1),
        Collections(rest, |p.colStk|));
    FileJoin(p.reports, Decls(body), Decls(rest));
  }

  lemma Regroup(a: seq<Collection>, b: seq<Collection>, c: seq<Collection>, d: seq<Collection>)
    ensures a + b + c + d == a + (b + c + d)
  {
  }

  /** The lines of a tree do to the parser what the tree says. */
  lemma {:induction false} TreeRun(p: Parser, t: Tree)
    requires p.loc == NO_LOCAL && TreeFine(t, |p.stk|, |p.colStk|, p.glo.reportId) && AllRoom(p.reports, Decls(t))
    ensures Runs(p, Lines(t), Past(p, t))
    decreases t
  {
    hide Runs, AllRoom, FileAll, DeclFine, Lines, File, Room;
    match t
    case Leaf => LeafRun(p);
    case Part(d, inner, rest) =>
      RoomParts(p.reports, Decls(inner) + [d], Decls(rest));
      RoomParts(p.reports, Decls(inner), [d]);
      FileNext(p.reports, Decls(inner), d);
      RoomLast(p.reports, Decls(inner) + [d], (d.tp, d.glo.reportId));
      TreeRun(Inside(p, d), inner);
      TreeRun(Behind(p, d, inner), rest);
      PartRun(p, d, inner, rest);
    case Group(tp, usage, body, rest) =>
      RoomParts(p.reports, Decls(body), Decls(rest));
      TreeRun(Within(p, tp, usage), body);
      IdIs(body, p.glo);
      TreeRun(Beyond(p, tp, usage, body), rest);
      GroupRun(p, tp, usage, body, rest);
  }

  lemma {:induction false} RoomLast(reports: map<(nat, nat), Report>, ds: seq<Decl>, key: (nat, nat))
    requires AllRoom(reports, ds)
    ensures Room(Held(FileAll(reports, ds), key))
  {
    hide FileAll, Room, Held;
    assert ds[..|ds|] == ds;
  }

  // ----- the reports -----

  lemma {:induction false} OwnNext(ds: seq<Decl>, d: Decl, key: (nat, nat))
    ensures Own(ds + [d], key) == Own(ds, key) + if (d.tp, d.glo.reportId) == key then [d] else []
  {
    assert (ds + [d])[..|ds + [d]| - 1] == ds;
  }

  lemma {:induction false} ReportNext(ds: seq<Decl>, d: Decl)
    ensures ReportOf(ds + [d]) == Longer(ReportOf(ds), d)
  {
    hide Spread, UsageSeq;
    assert (ds + [d])[..|ds + [d]| - 1] == ds;
  }

  /** Filing the fields one by one gives each report its own. */
  lemma {:induction false} Filed(ds: seq<Decl>, key: (nat, nat))
    ensures key in FileAll(map[], ds) <==> Own(ds, key) != []
    ensures Held(FileAll(map[], ds), key) == ReportOf(Own(ds, key))
    decreases |ds|
  {
    hide Longer, ReportOf;
    if ds == [] {
      EmptyReport();
    } else {
      var init, d := ds[..|ds| - 1], ds[|ds| - 1];
      assert ds == init + [d];
      Filed(init, key);
      OwnNext(init, d, key);
      FileNext(map[], init, d);
      ReportNext(Own(init, key), d);
      assert Own(init, key) + [] == Own(init, key);
    }
  }

  lemma EmptyReport()
    ensures ReportOf([]) == Report(0, [])
  {
  }

  lemma {:induction false} LimitedBefore(ds: seq<Decl>, n: nat)
    requires Limited(ds) && n <= |ds|
    ensures Limited(ds[..n])
    decreases |ds|
  {
    hide ReportOf;
    if n < |ds| {
      var init, d := ds[..|ds| - 1], ds[|ds| - 1];
      assert ds == init + [d];
      forall key: (nat, nat) ensures Room(ReportOf(Own(init, key))) {
        assert Room(ReportOf(Own(ds, key)));
        OwnNext(init, d, key);
        ReportNext(Own(init, key), d);
        assert Own(init, key) + [] == Own(init, key);
      }
      LimitedBefore(init, n);
      assert init[..n] == ds[..n];
    } else {
      assert ds[..n] == ds;
    }
  }

  lemma LimitsHold(ds: seq<Decl>)
    requires Limited(ds)
    ensures AllRoom(map[], ds)
  {
    hide FileAll, ReportOf, Held, Own;
    forall n, key: (nat, nat) | 0 <= n <= |ds| ensures Room(Held(FileAll(map[], ds[..n]), key)) {
      LimitedBefore(ds, n);
      Filed(ds[..n], key);
      assert Room(ReportOf(Own(ds[..n], key)));
    }
  }

  /** The collections and reports of the tree, and nothing else. */
  ghost predicate Says(p: Parser, t: Tree) {
    && p.cols == Collections(t, 0) && p.apps == Applications(t)
    && forall key: (nat, nat) ::
         && (key in p.reports <==> Own(Decls(t), key) != [])
         && (key in p.reports ==> p.reports[key] == ReportOf(Own(Decls(t), key)))
  }

  lemma PastSays(t: Tree)
    ensures Says(Past(FRESH, t), t)
  {
    hide FileAll, Own, ReportOf, Held, Decls, Collections, Applications, GloAfter;
    var c := Collections(t, 0);
    assert [] + c == c;
    forall key: (nat, nat)
      ensures key in FileAll(map[], Decls(t)) <==> Own(Decls(t), key) != []
      ensures key in FileAll(map[], Decls(t)) ==> FileAll(map[], Decls(t))[key] == ReportOf(Own(Decls(t), key))
    {
      Filed(Decls(t), key);
      HeldIs(FileAll(map[], Decls(t)), key);
    }
  }

  lemma HeldIs(reports: map<(nat, nat), Report>, key: (nat, nat))
    ensures key in reports ==> Held(reports, key) == reports[key]
  {
  }

  /** Parsing undoes writing: from the initial state, the bytes of a tree give exactly its collections and
      its reports, with their fields in order, each with its own values, and nothing else. */
  lemma {:induction false} RoundTrip(t: Tree)
    requires TreeFine(t, 0, 0, 0) && Limited(Decls(t))
    ensures ParseAll(FRESH, Bytes(Lines(t))).1 == Done
    ensures var p := ParseAll(FRESH, Bytes(Lines(t))).0;
            Says(p, t) && p.stk == [] && p.colStk == [] && p.loc == NO_LOCAL
  {
    hide FileAll, Runs, Lines, Bytes, ParseAll, TreeFine, Limited, Says, AllRoom;
    LimitsHold(Decls(t));
    TreeRun(FRESH, t);
    ParseLines(FRESH, Lines(t), Past(FRESH, t));
    PastSays(t);
  }

  // ----- what is accepted -----

  /** The conditions under which an item is accepted. */
  ghost predicate Acceptable(p: Parser, it: Item)
    requires it.Short? && it.tp < 3
  {
    if it.tp == 0 then
      if it.tag == 0xa then |p.colStk| < STK_SIZE // Collection
      else if it.tag == 0xc then |p.colStk| > 0 // End Collection
      else if it.tag == 0x8 then RoomFor(p, 0) // Input
      else if it.tag == 0x9 then RoomFor(p, 1) // Output
      else it.tag == 0xb && RoomFor(p, 2) // Feature
    else if it.tp == 1 then
      if it.tag == 0xa then |p.stk| < STK_SIZE // Push
      else if it.tag == 0xb then |p.stk| > 0 // Pop
      else if it.tag == 0x7 then it.data <= 32 // Report Size
      else if it.tag == 0x8 then it.data != 0 // Report ID
      else if it.tag == 0x9 then it.data <= 256 // Report Count
      else it.tag < 0x7
    else
      it.size != 0 &&
      if it.tag == 0xa then (if it.data != 0 then p.loc.depth == 0 else p.loc.depth > 0) // Delimiter
      else if it.tag > 2 then false
      else if p.loc.branch > 1 || it.tag == 1 then true // ignored, or Usage Minimum
      else if it.tag == 0 then |p.loc.usage| < MX_USAGES // Usage
      else // Usage Maximum
        var last := Paged(p.glo, it.size, it.data);
        p.loc.usageMin > last || (last < W - 1 && |p.loc.usage| + (last - p.loc.usageMin + 1) <= MX_USAGES)
  }

  /** There is room for a field of this type. */
  ghost predicate RoomFor(p: Parser, tp: nat) {
    && p.glo.reportId < MX_REPORTS && LimitsOrdered(p.glo)
    && var r := Held(p.reports, (tp, p.glo.reportId));
    r.sz + p.glo.reportSz * p.glo.reportCnt <= MX_BITS && (p.loc.usage == [] || |r.fields| < MX_FIELDS)
  }

  lemma FieldAccepted(p: Parser, tp: nat, flag: nat)
    requires Int32(p.glo.logicalMin) && Int32(p.glo.logicalMax)
    ensures AddField(p, tp, flag).1 <==> RoomFor(p, tp)
  {
    hide BadRange, LimitsOrdered, Spread, Max;
    RangeIs(p.glo);
  }

  /** An item is accepted exactly under them. */
  lemma ItemAccepted(p: Parser, it: Item)
    requires ShortOk(it) && it.tp < 3 && Going(p) && Int32(p.glo.logicalMin) && Int32(p.glo.logicalMax)
    ensures ItemStep(p, it).1 <==> Acceptable(p, it)
  {
    hide AddField, RoomFor, AddUsages, Signed, ToI32, Paged, Power, LaidOut, Range;
    FieldAccepted(p, 0, it.data);
    FieldAccepted(p, 1, it.data);
    FieldAccepted(p, 2, it.data);
    WordData(p.glo, it);
    AddUsagesOk(p.loc, p.loc.usageMin, Paged(p.glo, it.size, it.data));
  }

  lemma WordData(g: Global, it: Item)
    requires ShortOk(it)
    ensures Paged(g, it.size, it.data) < W
  {
    hide Power;
    WidthPowers();
  }
}
