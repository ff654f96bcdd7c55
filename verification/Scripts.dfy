/**
 write_net_rules and write_cd_rules as functions of what they read: their
 environment, the rules files they scan, and whether a banner is due.
 */
module Scripts {
  import opened Text
  import opened Rules
  import opened Allocator

  // ---------- requests: the environment udev passes ----------

  /** Empty text stands for an unset variable. */
  datatype NetRequest = NetRequest(
    iface: string, custom: string,
    addr: string, drv: string, devid: string, id: string, iftype: string,
    comment: string)

  datatype CdRequest = CdRequest(
    devpath: string, cdrom: string, method_: string,
    path: string, serial: string, model: string, revision: string,
    cdR: bool, cdRw: bool, dvd: bool, dvdR: bool, dvdRw: bool, dvdRam: bool)

  datatype Request = Net(net: NetRequest) | Cd(cd: CdRequest)

  function KindOf(req: Request): Kind {
    if req.Net? then NetKind else CdKind
  }

  const PATH := "ENV{ID_PATH}==\""
  const SERIAL := "ENV{ID_SERIAL}==\""
  const MODEL := "ENV{ID_MODEL}==\""
  const REVISION := "\", ENV{ID_REVISION}==\""
  const CD_HEAD := "ENV{ID_CDROM}==\"?*\", "

  /** The `RULE` of write_cd_rules; `None` for its exits with status 1. */
  function CdKeys(r: CdRequest): Option<string> {
    if r.devpath == "" || r.cdrom == "" then None
    else if r.method_ == "" || r.method_ == "by-path" then
      if r.path == "" then None else Some(PATH + r.path + "\"")
    else if r.method_ == "by-id" then
      if r.serial != "" then Some(SERIAL + r.serial + "\"")
      else if r.model != "" && r.revision != "" then
        Some(MODEL + r.model + (REVISION + r.revision + "\""))
      else None
    else None
  }

  /** The script exits with status 1 before it touches the lock. */
  predicate ExitsEarly(req: Request) {
    match req
    case Net(r) => r.iface == ""
    case Cd(r) => CdKeys(r).None?
  }

  function Clause(key: string, value: string): string {
    if value == "" then "" else key + value + "\""
  }

  const ADDR := ", DRIVERS==\"?*\", ATTR{address}==\""
  const DRV := ", DRIVERS==\""
  const DEVID := ", ATTR{dev_id}==\""
  const ID := ", KERNELS==\""
  const IFTYPE := ", ATTR{type}==\""
  const KERNEL := ", KERNEL==\""

  function NetKeys(r: NetRequest): string {
    Clause(ADDR, r.addr) + Clause(DRV, r.drv) + Clause(DEVID, r.devid) + Clause(ID, r.id) + Clause(IFTYPE, r.iftype)
  }

  /** `${name%%[0-9]*}` */
  function Stem(name: string): (b: string)
    ensures b <= name
    ensures forall i :: 0 <= i < |b| ==> !IsDigit(b[i])
    ensures |b| < |name| ==> IsDigit(name[|b|])
  {
    if name == [] || IsDigit(name[0]) then [] else [name[0]] + Stem(name[1..])
  }

  // ---------- files ----------

  /** The rules file and the temporary one used when its directory is not writeable. */
  datatype Files = Files(main: Option<seq<Line>>, tmp: Option<seq<Line>>)

  function Content(f: Option<seq<Line>>): seq<Line> {
    if f.Some? then f.value else []
  }

  /** What `find_all_rules` reads: only the file to be written when its directory is writeable. */
  function Scanned(f: Files, writeable: bool): seq<Line> {
    if writeable then Content(f.main) else Content(f.main) + Content(f.tmp)
  }

  predicate BothAbsent(f: Files) {
    f.main.None? && f.tmp.None?
  }

  /** `>> $RULES_FILE`, creating the file. */
  function Append(f: Files, writeable: bool, lines: seq<Line>): Files {
    if lines == [] then f
    else if writeable then f.(main := Some(Content(f.main) + lines))
    else f.(tmp := Some(Content(f.tmp) + lines))
  }

  // ---------- the scripts ----------

  const NET_BANNER := [
    Header(" This file was automatically generated by the /lib/udev/write_net_rules"),
    Header(" program, run by the persistent-net-generator.rules rules file."),
    Header(""),
    Header(" You can modify it, as long as you keep each rule on a single"),
    Header(" line, and change only the value of the NAME= key.")]

  const CD_BANNER := [
    Header(" This file was automatically generated by the /lib/udev/write_cd_rules"),
    Header(" program, run by the cd-aliases-generator.rules rules file."),
    Header(""),
    Header(" You can modify it, as long as you keep each rule on a single"),
    Header(" line, and set the $GENERATED variable."),
    Blank]

  function Banner(k: Kind): seq<Line> {
    if k.NetKind? then NET_BANNER else CD_BANNER
  }

  function CommentLines(text: string): seq<Line> {
    if text == "" then [] else [Comment(text)]
  }

  /** `write_rule` of write_net_rules. */
  function NetRuleLines(header: bool, keys: string, name: string, comment: string): seq<Line> {
    (if header then NET_BANNER else []) + [Blank] + CommentLines(comment) + [NetRule(keys, name)]
  }

  /** `write_rule` of write_cd_rules. */
  function CdRuleLines(header: bool, keys: string, link: string, comment: string): seq<Line> {
    (if header then CD_BANNER else []) + CommentLines(comment) + [CdRule(keys, link)]
  }

  /** The name written for an interface; `None` when the allocator's arithmetic fails. */
  function NetName(r: NetRequest, text: seq<string>): Option<string> {
    if r.custom != "" then Some(r.custom)
    else if Join(Scan(text, KeyOf(NetKind), Exact(r.iface))) != "" then
      match NextAvailable(Join(Scan(text, KeyOf(NetKind), Family(Stem(r.iface)))))
      case None => None
      case Some(n) => Some(Stem(r.iface) + n)
    else Some(r.iface)
  }

  function NetComment(r: NetRequest): string {
    if r.custom != "" then r.comment + " (custom name provided by external tool)" else r.comment
  }

  /** What the script does while it holds the lock. */
  datatype Plan = NoMatch | Crash | Write(lines: seq<Line>)

  function NetPlan(r: NetRequest, header: bool, text: seq<string>): Plan {
    if NetKeys(r) == "" then NoMatch
    else
      match NetName(r, text)
      case None => Crash
      case Some(n) =>
        Write(NetRuleLines(header, NetKeys(r) + (KERNEL + Stem(r.iface) + "*\""), n, NetComment(r)))
  }

  /** The four link families of an optical drive. */
  const FAMILIES := ["cdrom", "cdrw", "dvd", "dvdrw"]

  /** The up to four rules of one drive, all with the number text `n`. */
  function CdLines(r: CdRequest, header: bool, keys: string, n: string, comment: string): seq<Line> {
    CdRuleLines(header, keys, "cdrom" + n, comment)
    + (if r.cdR || r.cdRw then CdRuleLines(false, keys, "cdrw" + n, "") else [])
    + (if r.dvd then CdRuleLines(false, keys, "dvd" + n, "") else [])
    + (if r.dvdR || r.dvdRw || r.dvdRam then CdRuleLines(false, keys, "dvdrw" + n, "") else [])
  }

  function CdPlan(r: CdRequest, header: bool, text: seq<string>): Plan
    requires CdKeys(r).Some?
  {
    match NextAvailable(Join(Scan(text, KeyOf(CdKind), Family("cdrom"))))
    case None => Crash
    case Some(n) =>
      var keys := CD_HEAD + CdKeys(r).value;
      Write(CdLines(r, header, keys, n, r.model + " (" + r.path + ")"))
  }

  function PlanOf(req: Request, header: bool, text: seq<string>): Plan
    requires !ExitsEarly(req)
  {
    match req
    case Net(r) => NetPlan(r, header, text)
    case Cd(r) => CdPlan(r, header, text)
  }

  // ---------- well-formed requests ----------

  predicate PlainValue(v: string) {
    forall i :: 0 <= i < |v| ==> !IsSep(v[i])
  }

  /** If the name ends in digits, they are a numeral without a leading zero. */
  predicate PlainNumber(name: string) {
    var rest := name[|Stem(name)|..];
    AllDigits(rest) ==> rest == "" || Canonical(rest)
  }

  /** A name the kernel gives: a stem, without a dot, and perhaps a number without a leading zero. */
  predicate KernelName(n: string) {
    PlainName(n) && PlainNumber(n) && Stem(n) != "" && '.' !in Stem(n)
  }

  predicate ValidRequest(req: Request) {
    match req
    case Net(r) =>
      && (r.iface != "" ==> KernelName(r.iface))
      && (r.custom != "" ==> PlainName(r.custom))
      && PlainValue(r.addr) && PlainValue(r.drv) && PlainValue(r.devid) && PlainValue(r.id) && PlainValue(r.iftype)
    case Cd(r) =>
      PlainValue(r.path) && PlainValue(r.serial) && PlainValue(r.model) && PlainValue(r.revision)
  }

  lemma PlainIsClean(v: string, c: char)
    requires PlainValue(v)
    ensures Clean(v, c)
  {
  }

  lemma ClauseIsClean(key: string, value: string)
    requires Clean(key, 'N') && PlainValue(value)
    ensures Clean(Clause(key, value), 'N')
  {
  }

  lemma MatchConstantsAreClean()
    ensures Clean(ADDR, 'N') && Clean(DRV, 'N') && Clean(DEVID, 'N')
  {
  }

  lemma MoreConstantsAreClean()
    ensures Clean(ID, 'N') && Clean(IFTYPE, 'N') && Clean(KERNEL, 'N') && Clean("*\"", 'N')
  {
  }

  lemma NetKeysAreClean(r: NetRequest)
    requires ValidRequest(Net(r)) && r.iface != ""
    ensures Clean(NetKeys(r) + (KERNEL + Stem(r.iface) + "*\""), 'N')
  {
    MatchConstantsAreClean();
    MoreConstantsAreClean();
    ClauseIsClean(ADDR, r.addr);
    ClauseIsClean(DRV, r.drv);
    ClauseIsClean(DEVID, r.devid);
    ClauseIsClean(ID, r.id);
    ClauseIsClean(IFTYPE, r.iftype);
    var a, b := Clause(ADDR, r.addr), Clause(DRV, r.drv);
    CleanConcat(a, b, 'N');
    CleanConcat(a + b, Clause(DEVID, r.devid), 'N');
    CleanConcat(a + b + Clause(DEVID, r.devid), Clause(ID, r.id), 'N');
    CleanConcat(a + b + Clause(DEVID, r.devid) + Clause(ID, r.id), Clause(IFTYPE, r.iftype), 'N');
    PlainIsClean(Stem(r.iface), 'N');
    CleanConcat(KERNEL, Stem(r.iface), 'N');
    CleanConcat(KERNEL + Stem(r.iface), "*\"", 'N');
    CleanConcat(NetKeys(r), KERNEL + Stem(r.iface) + "*\"", 'N');
  }

  lemma CdConstantsAreClean()
    ensures Clean(PATH, 'S') && Clean(SERIAL, 'S') && Clean(MODEL, 'S') && Clean(REVISION, 'S') && Clean("\"", 'S')
    ensures PATH[0] == SERIAL[0] == MODEL[0] == CD_HEAD[0] == 'E'
    ensures forall i :: 0 <= i < |CD_HEAD| - 1 && IsSep(CD_HEAD[i]) ==> CD_HEAD[i + 1] == ' '
  {
  }

  lemma QuotedIsClean(open: string, value: string, close: string)
    requires Clean(open, 'S') && PlainValue(value) && Clean(close, 'S')
    ensures Clean(open + value + close, 'S')
  {
    PlainIsClean(value, 'S');
    CleanConcat(open, value, 'S');
    CleanConcat(open + value, close, 'S');
  }

  lemma CdKeysAreClean(r: CdRequest)
    requires ValidRequest(Cd(r)) && CdKeys(r).Some?
    ensures var keys := CD_HEAD + CdKeys(r).value;
      Clean(keys, 'S') && keys != [] && keys[0] != '#'
  {
    CdConstantsAreClean();
    QuotedIsClean(PATH, r.path, "\"");
    QuotedIsClean(SERIAL, r.serial, "\"");
    QuotedIsClean(REVISION, r.revision, "\"");
    QuotedIsClean(MODEL, r.model, REVISION + r.revision + "\"");
    var k := CdKeys(r).value;
    assert Clean(k, 'S') && k != [] && k[0] == 'E';
    var keys := CD_HEAD + k;
    forall i | 0 <= i < |keys| && IsSep(keys[i])
      ensures i + 1 < |keys| && keys[i + 1] != 'S'
    {
      if i < |CD_HEAD| {
        assert keys[i] == CD_HEAD[i];
        assert i < |CD_HEAD| - 1 ==> keys[i + 1] == CD_HEAD[i + 1];
      } else {
        assert keys[i] == k[i - |CD_HEAD|];
      }
    }
  }
}
