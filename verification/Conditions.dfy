/** Which devices the generated rules apply to, by udev's reading of their text. */
module Conditions {
  import opened Text
  import opened Rules
  import opened Scripts
  import opened Turns
  import opened Udev

  // ---------- the text of the conditions ----------

  function If(value: string, ps: seq<Pair>): seq<Pair> {
    if value != "" then ps else []
  }

  /** The conditions asked for, each with the request's own value. */
  function NetPairs(r: NetRequest): seq<Pair> {
    If(r.addr, [Pair("DRIVERS", "==", "?*"), Pair("ATTR{address}", "==", r.addr)])
    + If(r.drv, [Pair("DRIVERS", "==", r.drv)])
    + If(r.devid, [Pair("ATTR{dev_id}", "==", r.devid)])
    + If(r.id, [Pair("KERNELS", "==", r.id)])
    + If(r.iftype, [Pair("ATTR{type}", "==", r.iftype)])
    + [Pair("KERNEL", "==", Stem(r.iface) + "*")]
  }

  /** The drive asked for: by its path, its serial number, or its model and revision. */
  function DrivePairs(r: CdRequest): seq<Pair> {
    if r.method_ != "by-id" then [Pair("ENV{ID_PATH}", "==", r.path)]
    else if r.serial != "" then [Pair("ENV{ID_SERIAL}", "==", r.serial)]
    else [Pair("ENV{ID_MODEL}", "==", r.model), Pair("ENV{ID_REVISION}", "==", r.revision)]
  }

  lemma ListedTwo(p: Pair, q: Pair)
    ensures Listed([p, q]) == ", " + PairText(p) + (", " + PairText(q))
  {
    hide PairText;
    ListedConcat([p], [q]);
    ListedOne(p);
    ListedOne(q);
    assert [p] + [q] == [p, q];
  }

  /** A text up to the opening quote, the value, and the closing quote. */
  lemma Closed(open: string, p: Pair)
    requires open == p.key + p.op + "\""
    ensures open + p.value + "\"" == PairText(p)
  {
  }

  lemma AfterComma(x: string, value: string)
    ensures ", " + x + value + "\"" == ", " + (x + value + "\"")
  {
  }

  lemma OneClause(key: string, value: string)
    ensures Clause(", " + (key + "==" + "\""), value) == Listed(If(value, [Pair(key, "==", value)]))
  {
    hide PairText;
    var p := Pair(key, "==", value);
    ListedOne(p);
    Closed(key + "==" + "\"", p);
    AfterComma(key + "==" + "\"", value);
  }

  const ANY_DRIVER := "DRIVERS==\"?*\""

  lemma AnyDriver()
    ensures PairText(Pair("DRIVERS", "==", "?*")) == ANY_DRIVER
  {
  }

  lemma AddrText()
    ensures ADDR == ", " + ANY_DRIVER + (", " + ("ATTR{address}" + "==" + "\""))
  {
  }

  lemma AddrClause(value: string)
    ensures Clause(ADDR, value)
            == Listed(If(value, [Pair("DRIVERS", "==", "?*"), Pair("ATTR{address}", "==", value)]))
  {
    hide PairText, ADDR;
    var q := Pair("ATTR{address}", "==", value);
    AnyDriver();
    AddrText();
    ListedTwo(Pair("DRIVERS", "==", "?*"), q);
    Closed("ATTR{address}" + "==" + "\"", q);
    AfterComma("ATTR{address}" + "==" + "\"", value);
    FourTexts(", " + ANY_DRIVER, ", " + ("ATTR{address}" + "==" + "\""), value, "\"");
  }

  lemma FourTexts(a: string, b: string, c: string, d: string)
    ensures a + b + c + d == a + (b + c + d)
  {
  }

  lemma KernelClause(stem: string)
    ensures KERNEL + stem + "*\"" == Listed([Pair("KERNEL", "==", stem + "*")])
  {
    hide PairText;
    var p := Pair("KERNEL", "==", stem + "*");
    ListedOne(p);
    ClauseTexts();
    Closed("KERNEL" + "==" + "\"", p);
    AfterComma("KERNEL" + "==" + "\"", stem + "*");
    assert "*\"" == "*" + "\"";
    FourTexts(KERNEL, stem, "*", "\"");
    assert KERNEL + stem + "*\"" == KERNEL + (stem + "*") + "\"";
  }

  lemma ClauseTexts()
    ensures DRV == ", " + ("DRIVERS" + "==" + "\"") && DEVID == ", " + ("ATTR{dev_id}" + "==" + "\"")
    ensures ID == ", " + ("KERNELS" + "==" + "\"") && IFTYPE == ", " + ("ATTR{type}" + "==" + "\"")
    ensures KERNEL == ", " + ("KERNEL" + "==" + "\"")
  {
  }

  lemma NetKeysAre(r: NetRequest)
    ensures NetKeys(r) + (KERNEL + Stem(r.iface) + "*\"") == Listed(NetPairs(r))
  {
    hide PairText, Listed, Clause, If, Stem;
    var a := If(r.addr, [Pair("DRIVERS", "==", "?*"), Pair("ATTR{address}", "==", r.addr)]);
    var b := If(r.drv, [Pair("DRIVERS", "==", r.drv)]);
    var c := If(r.devid, [Pair("ATTR{dev_id}", "==", r.devid)]);
    var d := If(r.id, [Pair("KERNELS", "==", r.id)]);
    var e := If(r.iftype, [Pair("ATTR{type}", "==", r.iftype)]);
    ClauseTexts();
    AddrClause(r.addr);
    OneClause("DRIVERS", r.drv);
    OneClause("ATTR{dev_id}", r.devid);
    OneClause("KERNELS", r.id);
    OneClause("ATTR{type}", r.iftype);
    KernelClause(Stem(r.iface));
    ListedConcat(a, b);
    ListedConcat(a + b, c);
    ListedConcat(a + b + c, d);
    ListedConcat(a + b + c + d, e);
    ListedConcat(a + b + c + d + e, [Pair("KERNEL", "==", Stem(r.iface) + "*")]);
  }

  // ---------- reading the rules back ----------

  /** No value contains a quote or a character that stands for others. */
  predicate LiteralNet(r: NetRequest) {
    && Literal(r.addr) && Literal(r.drv) && Literal(r.devid) && Literal(r.id) && Literal(r.iftype)
    && Literal(Stem(r.iface))
  }

  predicate LiteralCd(r: CdRequest) {
    Literal(r.path) && Literal(r.serial) && Literal(r.model) && Literal(r.revision)
  }

  lemma LiteralHasNoQuote(v: string)
    requires Literal(v)
    ensures '\"' !in v && '\"' !in v + "*"
  {
    assert '\"' in "*?[|\"" by {
      assert "*?[|\""[4] == '\"';
    }
    assert forall i :: 0 <= i < |v| ==> v[i] != '\"';
  }

  lemma KeysAreWritable()
    ensures Writable(Pair("SUBSYSTEM", "==", "net")) && Writable(Pair("ACTION", "==", "add"))
    ensures Writable(Pair("DRIVERS", "==", "?*"))
  {
  }

  lemma KernelKeysAreWritable()
    ensures Writable(Pair("KERNELS", "==", "")) && Writable(Pair("KERNEL", "==", "")) && Writable(Pair("NAME", "=", ""))
  {
  }

  lemma AttrKeysAreWritable()
    ensures Writable(Pair("ATTR{address}", "==", "")) && Writable(Pair("ATTR{dev_id}", "==", ""))
    ensures Writable(Pair("ATTR{type}", "==", ""))
  {
  }

  lemma CdKeysAreWritable()
    ensures Writable(Pair("ENV{ID_CDROM}", "==", "?*")) && Writable(Pair("ENV{ID_PATH}", "==", ""))
    ensures Writable(Pair("ENV{ID_SERIAL}", "==", "")) && Writable(Pair("SYMLINK", "+=", ""))
  {
  }

  lemma MoreCdKeysAreWritable()
    ensures Writable(Pair("ENV{ID_MODEL}", "==", "")) && Writable(Pair("ENV{ID_REVISION}", "==", ""))
  {
  }

  lemma GeneratedIsWritable()
    ensures Writable(Pair("ENV{GENERATED}", "=", "1"))
  {
  }

  lemma OtherValue(p: Pair, value: string)
    requires Writable(p) && '\"' !in value
    ensures Writable(p.(value := value))
  {
  }

  lemma NetPairsAreWritable(r: NetRequest)
    requires LiteralNet(r)
    ensures AllWritable(NetPairs(r))
  {
    hide Writable, Literal, Stem;
    KeysAreWritable();
    KernelKeysAreWritable();
    AttrKeysAreWritable();
    LiteralHasNoQuote(r.addr);
    LiteralHasNoQuote(r.drv);
    LiteralHasNoQuote(r.devid);
    LiteralHasNoQuote(r.id);
    LiteralHasNoQuote(r.iftype);
    LiteralHasNoQuote(Stem(r.iface));
    OtherValue(Pair("DRIVERS", "==", "?*"), r.drv);
    OtherValue(Pair("ATTR{address}", "==", ""), r.addr);
    OtherValue(Pair("ATTR{dev_id}", "==", ""), r.devid);
    OtherValue(Pair("KERNELS", "==", ""), r.id);
    OtherValue(Pair("ATTR{type}", "==", ""), r.iftype);
    OtherValue(Pair("KERNEL", "==", ""), Stem(r.iface) + "*");
  }

  lemma PairsOfPairAndListed(p: Pair, ps: seq<Pair>)
    requires Writable(p) && AllWritable(ps)
    ensures Pairs(PairText(p) + Listed(ps)) == [p] + ps
  {
    hide PairText, Writable, FirstPair;
    PairsOfOne(p, Listed(ps));
    PairsOfListed(ps, "");
    assert Listed(ps) + "" == Listed(ps);
    assert Pairs("") == [] by {
      NothingToRead();
    }
  }

  lemma NothingToRead()
    ensures Pairs("") == []
  {
  }

  /** The rule of write_net_rules, read back: exactly the conditions asked for, and the name. */
  lemma NetRuleReads(r: NetRequest, name: string)
    requires LiteralNet(r) && '\"' !in name
    ensures Pairs(Render(NetRule(NetKeys(r) + (KERNEL + Stem(r.iface) + "*\""), name)))
      == [Pair("SUBSYSTEM", "==", "net")] + ([Pair("ACTION", "==", "add")] + NetPairs(r) + [Pair("NAME", "=", name)])
  {
    hide Writable, LiteralNet, NetKeys, Stem, Listed, NetPairs, PairText, Pairs, Render, KERNEL;
    var h, a, n := Pair("SUBSYSTEM", "==", "net"), Pair("ACTION", "==", "add"), Pair("NAME", "=", name);
    var keys, ps := NetKeys(r) + (KERNEL + Stem(r.iface) + "*\""), [a] + NetPairs(r) + [n];
    KeysAreWritable();
    KernelKeysAreWritable();
    OtherValue(Pair("NAME", "=", ""), name);
    NetPairsAreWritable(r);
    NetKeysAre(r);
    ListedConcat([a], NetPairs(r));
    ListedConcat([a] + NetPairs(r), [n]);
    ListedOne(a);
    ListedOne(n);
    PairsOfPairAndListed(h, ps);
    NetRuleText(keys, name);
  }

  lemma NetRuleText(keys: string, name: string)
    ensures var h, a, n := Pair("SUBSYSTEM", "==", "net"), Pair("ACTION", "==", "add"), Pair("NAME", "=", name);
      Render(NetRule(keys, name)) == PairText(h) + (", " + PairText(a) + keys + (", " + PairText(n)))
  {
    hide PairText;
    var h, a, n := Pair("SUBSYSTEM", "==", "net"), Pair("ACTION", "==", "add"), Pair("NAME", "=", name);
    HeadTexts();
    Closed("NAME" + "=" + "\"", n);
    NameText(name);
    Regroup(PairText(h), ", " + PairText(a), keys, ", ", PairText(n));
  }

  lemma NameText(name: string)
    ensures KeyOf(NetKind) + "\"" + (name + "\"") == "NAME" + "=" + "\"" + name + "\""
  {
  }

  lemma HeadTexts()
    ensures NetHead() == PairText(Pair("SUBSYSTEM", "==", "net")) + (", " + PairText(Pair("ACTION", "==", "add")))
  {
  }

  lemma Regroup(a: string, b: string, c: string, d: string, e: string)
    ensures a + b + c + d + e == a + (b + c + (d + e))
  {
  }

  /** The rule of write_cd_rules, read back. */
  lemma CdRuleReads(r: CdRequest, link: string)
    requires LiteralCd(r) && CdKeys(r).Some? && '\"' !in link
    ensures Pairs(Render(CdRule(CD_HEAD + CdKeys(r).value, link)))
      == [Pair("ENV{ID_CDROM}", "==", "?*")]
         + (DrivePairs(r) + [Pair("SYMLINK", "+=", link), Pair("ENV{GENERATED}", "=", "1")])
  {
    hide Writable, LiteralCd, CdKeys, Listed, DrivePairs, PairText, Pairs, Render, CD_HEAD;
    var h, s, g := Pair("ENV{ID_CDROM}", "==", "?*"), Pair("SYMLINK", "+=", link), Pair("ENV{GENERATED}", "=", "1");
    var ps := DrivePairs(r) + [s, g];
    CdKeysAreWritable();
    MoreCdKeysAreWritable();
    GeneratedIsWritable();
    OtherValue(Pair("SYMLINK", "+=", ""), link);
    DrivePairsAreWritable(r);
    CdKeysAre(r);
    ListedConcat(DrivePairs(r), [s, g]);
    ListedTwo(s, g);
    PairsOfPairAndListed(h, ps);
    CdRuleText(CdKeys(r).value, link);
  }

  lemma CdRuleText(rule: string, link: string)
    ensures var h, s := Pair("ENV{ID_CDROM}", "==", "?*"), Pair("SYMLINK", "+=", link);
      var g := Pair("ENV{GENERATED}", "=", "1");
      Render(CdRule(CD_HEAD + rule, link)) == PairText(h) + (", " + rule + (", " + PairText(s) + (", " + PairText(g))))
  {
    hide PairText, CdTail, KeyOf, CD_HEAD;
    var h, s, g := Pair("ENV{ID_CDROM}", "==", "?*"), Pair("SYMLINK", "+=", link), Pair("ENV{GENERATED}", "=", "1");
    CdTexts();
    Closed("SYMLINK" + "+=" + "\"", s);
    var o, t := "SYMLINK" + "+=" + "\"", ", " + PairText(g);
    CdParts(PairText(h), rule, KeyOf(CdKind), link, CdTail(), o, t);
  }

  lemma CdParts(h: string, rule: string, key: string, link: string, tail: string, o: string, t: string)
    requires o == key + "\"" && tail == "\"" + t
    ensures h + ", " + rule + ", " + (key + "\"" + (link + tail)) == h + (", " + rule + (", " + (o + link + "\"") + t))
  {
    assert key + "\"" + (link + tail) == o + link + "\"" + t;
  }

  lemma CdTexts()
    ensures CD_HEAD == PairText(Pair("ENV{ID_CDROM}", "==", "?*")) + ", "
    ensures CdTail() == "\"" + (", " + PairText(Pair("ENV{GENERATED}", "=", "1")))
    ensures KeyOf(CdKind) + "\"" == "SYMLINK" + "+=" + "\""
  {
  }

  lemma DrivePairsAreWritable(r: CdRequest)
    requires LiteralCd(r)
    ensures AllWritable(DrivePairs(r))
  {
    hide Writable, Literal;
    CdKeysAreWritable();
    MoreCdKeysAreWritable();
    GeneratedIsWritable();
    LiteralHasNoQuote(r.path);
    LiteralHasNoQuote(r.serial);
    LiteralHasNoQuote(r.model);
    LiteralHasNoQuote(r.revision);
    OtherValue(Pair("ENV{ID_PATH}", "==", ""), r.path);
    OtherValue(Pair("ENV{ID_SERIAL}", "==", ""), r.serial);
    OtherValue(Pair("ENV{ID_MODEL}", "==", ""), r.model);
    OtherValue(Pair("ENV{ID_REVISION}", "==", ""), r.revision);
  }

  lemma CdKeysAre(r: CdRequest)
    requires CdKeys(r).Some?
    ensures ", " + CdKeys(r).value == Listed(DrivePairs(r))
  {
    MethodsDiffer();
    var p, s := Pair("ENV{ID_PATH}", "==", r.path), Pair("ENV{ID_SERIAL}", "==", r.serial);
    var m, v := Pair("ENV{ID_MODEL}", "==", r.model), Pair("ENV{ID_REVISION}", "==", r.revision);
    hide PairText, Listed;
    DriveTexts(r);
    ListedOne(p);
    ListedOne(s);
    ListedTwo(m, v);
  }

  lemma MethodsDiffer()
    ensures "by-path" != "by-id" && "" != "by-id"
  {
    assert "by-path"[3] != "by-id"[3];
  }

  lemma DriveTexts(r: CdRequest)
    ensures PATH + r.path + "\"" == PairText(Pair("ENV{ID_PATH}", "==", r.path))
    ensures SERIAL + r.serial + "\"" == PairText(Pair("ENV{ID_SERIAL}", "==", r.serial))
    ensures ", " + (MODEL + r.model + (REVISION + r.revision + "\""))
      == ", " + PairText(Pair("ENV{ID_MODEL}", "==", r.model))
         + (", " + PairText(Pair("ENV{ID_REVISION}", "==", r.revision)))
  {
    hide PairText, PATH, SERIAL, MODEL, REVISION;
    var m, v := Pair("ENV{ID_MODEL}", "==", r.model), Pair("ENV{ID_REVISION}", "==", r.revision);
    DriveConstants();
    Closed(PATH, Pair("ENV{ID_PATH}", "==", r.path));
    Closed(SERIAL, Pair("ENV{ID_SERIAL}", "==", r.serial));
    Closed(MODEL, m);
    var o := "ENV{ID_REVISION}" + "==" + "\"";
    Closed(o, v);
    ModelText(MODEL, r.model, o, r.revision);
  }

  lemma ModelText(model: string, m: string, o: string, v: string)
    ensures ", " + (model + m + ("\"" + (", " + o) + v + "\"")) == ", " + (model + m + "\"") + (", " + (o + v + "\""))
  {
  }

  lemma DriveConstants()
    ensures PATH == "ENV{ID_PATH}" + "==" + "\"" && SERIAL == "ENV{ID_SERIAL}" + "==" + "\""
    ensures MODEL == "ENV{ID_MODEL}" + "==" + "\""
    ensures REVISION == "\"" + (", " + ("ENV{ID_REVISION}" + "==" + "\""))
  {
  }

  // ---------- the devices a network rule applies to ----------

  /** Nothing is asked for, or the attribute has the value asked for. */
  predicate Asked(value: string, m: map<string, string>, x: string) {
    value != "" ==> x in m && m[x] == value
  }

  /** What one node of the chain must be. */
  predicate NodeFits(r: NetRequest, node: Node) {
    && (r.addr != "" ==> node.driver != "")
    && (r.drv != "" ==> node.driver == r.drv)
    && (r.id != "" ==> node.kernel == r.id)
  }

  /** The network device asked for, when it is added. */
  predicate NetFits(r: NetRequest, d: Device, action: string) {
    && d.subsystem == "net" && action == "add" && Stem(r.iface) <= d.kernel
    && Asked(r.addr, d.attrs, "address") && Asked(r.devid, d.attrs, "dev_id") && Asked(r.iftype, d.attrs, "type")
    && exists i :: 0 <= i < |d.chain| && NodeFits(r, d.chain[i])
  }

  /** The attribute named in a key. */
  lemma AttrSubject(d: Device, action: string, node: Node)
    ensures Subject(d, action, node, "ATTR{address}") == Lookup(d.attrs, "address")
    ensures Subject(d, action, node, "ATTR{dev_id}") == Lookup(d.attrs, "dev_id")
    ensures Subject(d, action, node, "ATTR{type}") == Lookup(d.attrs, "type")
  {
    AttrKey(d, action, node, "address");
    AttrKey(d, action, node, "dev_id");
    AttrKey(d, action, node, "type");
    assert "ATTR{" + "address" + "}" == "ATTR{address}";
    assert "ATTR{" + "dev_id" + "}" == "ATTR{dev_id}";
    assert "ATTR{" + "type" + "}" == "ATTR{type}";
  }

  lemma AttrKey(d: Device, action: string, node: Node, x: string)
    ensures Subject(d, action, node, "ATTR{" + x + "}") == Lookup(d.attrs, x)
  {
    var key := "ATTR{" + x + "}";
    assert key[1] == 'T' && "SUBSYSTEM"[1] != 'T' && "ACTION"[1] != 'T' && "KERNEL"[1] != 'T';
    assert "KERNELS"[1] != 'T' && "DRIVERS"[1] != 'T';
    assert key[5..|key| - 1] == x && key[..5] == "ATTR{";
  }

  lemma EnvKey(d: Device, action: string, node: Node, x: string)
    ensures Subject(d, action, node, "ENV{" + x + "}") == Lookup(d.env, x)
  {
    var key := "ENV{" + x + "}";
    assert key[0] == 'E' && "SUBSYSTEM"[0] != 'E' && "ACTION"[0] != 'E' && "KERNEL"[0] != 'E';
    assert "KERNELS"[0] != 'E' && "DRIVERS"[0] != 'E' && "ATTR{"[0] != 'E';
    assert key[4..|key| - 1] == x && key[..4] == "ENV{";
  }

  lemma PlainSubject(d: Device, action: string, node: Node)
    ensures Subject(d, action, node, "SUBSYSTEM") == Some(d.subsystem)
    ensures Subject(d, action, node, "ACTION") == Some(action)
    ensures Subject(d, action, node, "KERNEL") == Some(d.kernel)
    ensures Subject(d, action, node, "KERNELS") == Some(node.kernel)
    ensures Subject(d, action, node, "DRIVERS") == Some(node.driver)
  {
    assert "SUBSYSTEM"[0] != "ACTION"[0] && |"KERNEL"| != |"KERNELS"|;
    assert "KERNEL"[0] != "ACTION"[0] && "KERNEL"[0] != "SUBSYSTEM"[0];
    assert "KERNELS"[0] != "ACTION"[0] && "KERNELS"[0] != "SUBSYSTEM"[0];
    assert "DRIVERS"[0] != "ACTION"[0] && "DRIVERS"[0] != "SUBSYSTEM"[0] && "DRIVERS"[0] != "KERNEL"[0];
    assert "DRIVERS"[0] != "KERNELS"[0];
  }

  /** A condition on a literal value. */
  lemma LiteralHolds(d: Device, action: string, node: Node, key: string, value: string)
    requires Literal(value)
    ensures Holds(d, action, node, Pair(key, "==", value)) <==> Subject(d, action, node, key) == Some(value)
  {
    hide Subject;
    var s := Subject(d, action, node, key);
    if s.Some? {
      LiteralFits(value, s.value);
    }
  }

  lemma IfHolds(d: Device, action: string, node: Node, key: string, value: string)
    requires Literal(value)
    ensures AllHold(d, action, node, If(value, [Pair(key, "==", value)]))
      <==> (value != "" ==> Subject(d, action, node, key) == Some(value))
  {
    hide Holds, Subject, AllHold;
    LiteralHolds(d, action, node, key, value);
    AllHoldOne(d, action, node, Pair(key, "==", value));
    AllHoldNone(d, action, node);
  }

  lemma AllHoldNone(d: Device, action: string, node: Node)
    ensures AllHold(d, action, node, [])
  {
  }

  lemma AddrHolds(d: Device, action: string, node: Node, value: string)
    requires Literal(value)
    ensures AllHold(d, action, node, If(value, [Pair("DRIVERS", "==", "?*"), Pair("ATTR{address}", "==", value)]))
      <==> (value != "" ==> node.driver != "" && Lookup(d.attrs, "address") == Some(value))
  {
    hide Subject, AllHold, Fits;
    var p, q := Pair("DRIVERS", "==", "?*"), Pair("ATTR{address}", "==", value);
    LiteralHolds(d, action, node, "ATTR{address}", value);
    AttrSubject(d, action, node);
    PlainSubject(d, action, node);
    SomethingFits(node.driver);
    AllHoldOne(d, action, node, p);
    AllHoldOne(d, action, node, q);
    AllHoldConcat(d, action, node, [p], [q]);
    assert [p] + [q] == [p, q];
    AllHoldNone(d, action, node);
  }

  lemma KernelHolds(d: Device, action: string, node: Node, stem: string)
    requires Literal(stem)
    ensures AllHold(d, action, node, [Pair("KERNEL", "==", stem + "*")]) <==> stem <= d.kernel
  {
    hide Subject, AllHold, Fits;
    PlainSubject(d, action, node);
    BeginningFits(stem, d.kernel);
    AllHoldOne(d, action, node, Pair("KERNEL", "==", stem + "*"));
  }

  lemma NetPairsHold(r: NetRequest, d: Device, action: string, node: Node)
    requires LiteralNet(r)
    ensures AllHold(d, action, node, NetPairs(r))
      <==> NodeFits(r, node) && Stem(r.iface) <= d.kernel
           && Asked(r.addr, d.attrs, "address") && Asked(r.devid, d.attrs, "dev_id") && Asked(r.iftype, d.attrs, "type")
  {
    hide Subject, AllHold, Literal, If, Stem;
    var a := If(r.addr, [Pair("DRIVERS", "==", "?*"), Pair("ATTR{address}", "==", r.addr)]);
    var b := If(r.drv, [Pair("DRIVERS", "==", r.drv)]);
    var c := If(r.devid, [Pair("ATTR{dev_id}", "==", r.devid)]);
    var k := If(r.id, [Pair("KERNELS", "==", r.id)]);
    var e := If(r.iftype, [Pair("ATTR{type}", "==", r.iftype)]);
    var f := [Pair("KERNEL", "==", Stem(r.iface) + "*")];
    PlainSubject(d, action, node);
    AttrSubject(d, action, node);
    AddrHolds(d, action, node, r.addr);
    IfHolds(d, action, node, "DRIVERS", r.drv);
    IfHolds(d, action, node, "ATTR{dev_id}", r.devid);
    IfHolds(d, action, node, "KERNELS", r.id);
    IfHolds(d, action, node, "ATTR{type}", r.iftype);
    KernelHolds(d, action, node, Stem(r.iface));
    AllHoldConcat(d, action, node, a, b);
    AllHoldConcat(d, action, node, a + b, c);
    AllHoldConcat(d, action, node, a + b + c, k);
    AllHoldConcat(d, action, node, a + b + c + k, e);
    AllHoldConcat(d, action, node, a + b + c + k + e, f);
  }

  lemma HeadHolds(d: Device, action: string, node: Node)
    ensures AllHold(d, action, node, [Pair("SUBSYSTEM", "==", "net")]) <==> d.subsystem == "net"
    ensures AllHold(d, action, node, [Pair("ACTION", "==", "add")]) <==> action == "add"
  {
    hide Subject, AllHold, Fits;
    PlainSubject(d, action, node);
    LiteralHolds(d, action, node, "SUBSYSTEM", "net");
    LiteralHolds(d, action, node, "ACTION", "add");
    AllHoldOne(d, action, node, Pair("SUBSYSTEM", "==", "net"));
    AllHoldOne(d, action, node, Pair("ACTION", "==", "add"));
  }

  /** The rule written for `r` applies to exactly the devices asked for, and gives them the name. */
  lemma NetRuleApplies(r: NetRequest, name: string, d: Device, action: string)
    requires LiteralNet(r) && '\"' !in name
    ensures var line := Render(NetRule(NetKeys(r) + (KERNEL + Stem(r.iface) + "*\""), name));
      Applies(line, d, action) <==> NetFits(r, d, action)
  {
    hide AllHold, LiteralNet, NetPairs, Render, NetKeys, Stem, Pairs, Asked;
    var n := [Pair("NAME", "=", name)];
    var h, a := [Pair("SUBSYSTEM", "==", "net")], [Pair("ACTION", "==", "add")];
    NetRuleReads(r, name);
    forall i | 0 <= i < |d.chain|
      ensures AllHold(d, action, d.chain[i], h + (a + NetPairs(r) + n))
        <==> d.subsystem == "net" && action == "add" && AllHold(d, action, d.chain[i], NetPairs(r))
    {
      var node := d.chain[i];
      HeadHolds(d, action, node);
      AllHoldOne(d, action, node, n[0]);
      AllHoldConcat(d, action, node, a, NetPairs(r));
      AllHoldConcat(d, action, node, a + NetPairs(r), n);
      AllHoldConcat(d, action, node, h, a + NetPairs(r) + n);
    }
    forall i | 0 <= i < |d.chain|
      ensures AllHold(d, action, d.chain[i], NetPairs(r))
        <==> NodeFits(r, d.chain[i]) && Stem(r.iface) <= d.kernel
             && Asked(r.addr, d.attrs, "address") && Asked(r.devid, d.attrs, "dev_id")
             && Asked(r.iftype, d.attrs, "type")
    {
      NetPairsHold(r, d, action, d.chain[i]);
    }
  }

  /** Every rule in the lines a run of write_net_rules writes is one for the devices asked for. */
  lemma NetPlanApplies(r: NetRequest, header: bool, text: seq<string>, d: Device, action: string)
    requires LiteralNet(r) && NetPlan(r, header, text).Write?
    requires NetName(r, text).Some? ==> '\"' !in NetName(r, text).value
    ensures forall line :: line in NetPlan(r, header, text).lines && IsRule(line) ==>
      (Applies(Render(line), d, action) <==> NetFits(r, d, action))
  {
    hide NetKeys, NetName, Render, Applies, NetFits, LiteralNet, Stem;
    var name := NetName(r, text).value;
    NetRuleApplies(r, name, d, action);
    forall line | line in NetPlan(r, header, text).lines && IsRule(line)
      ensures line == NetRule(NetKeys(r) + (KERNEL + Stem(r.iface) + "*\""), name)
    {
      OnlyRule(header, NetKeys(r) + (KERNEL + Stem(r.iface) + "*\""), name, NetComment(r), line);
    }
  }

  lemma OnlyRule(header: bool, keys: string, name: string, comment: string, line: Line)
    requires line in NetRuleLines(header, keys, name, comment) && IsRule(line)
    ensures line == NetRule(keys, name)
  {
  }

  /** The card that asked for the rule, when it is added under the kernel's name. */
  predicate IsCard(r: NetRequest, d: Device) {
    && d.subsystem == "net" && d.kernel == r.iface
    && Asked(r.addr, d.attrs, "address") && Asked(r.devid, d.attrs, "dev_id") && Asked(r.iftype, d.attrs, "type")
    && exists i :: 0 <= i < |d.chain| && NodeFits(r, d.chain[i])
  }

  /** A card's own rule applies to it. */
  lemma OwnCard(r: NetRequest, name: string, d: Device)
    requires LiteralNet(r) && '\"' !in name && IsCard(r, d)
    ensures Applies(Render(NetRule(NetKeys(r) + (KERNEL + Stem(r.iface) + "*\""), name)), d, "add")
  {
    hide Applies, Render, NetKeys, NodeFits, LiteralNet;
    NetRuleApplies(r, name, d, "add");
  }

  // ---------- the drives a link rule applies to ----------

  /** The drive asked for. */
  predicate DriveFits(r: CdRequest, d: Device) {
    && Lookup(d.env, "ID_CDROM") !in {None, Some("")}
    && (r.method_ != "by-id" ==> Lookup(d.env, "ID_PATH") == Some(r.path))
    && (r.method_ == "by-id" && r.serial != "" ==> Lookup(d.env, "ID_SERIAL") == Some(r.serial))
    && (r.method_ == "by-id" && r.serial == "" ==>
          Lookup(d.env, "ID_MODEL") == Some(r.model) && Lookup(d.env, "ID_REVISION") == Some(r.revision))
  }

  lemma EnvSubjects(d: Device, action: string, node: Node)
    ensures Subject(d, action, node, "ENV{ID_CDROM}") == Lookup(d.env, "ID_CDROM")
    ensures Subject(d, action, node, "ENV{ID_PATH}") == Lookup(d.env, "ID_PATH")
    ensures Subject(d, action, node, "ENV{ID_SERIAL}") == Lookup(d.env, "ID_SERIAL")
  {
    hide Subject;
    EnvKey(d, action, node, "ID_CDROM");
    EnvKey(d, action, node, "ID_PATH");
    EnvKey(d, action, node, "ID_SERIAL");
    assert "ENV{" + "ID_CDROM" + "}" == "ENV{ID_CDROM}";
    assert "ENV{" + "ID_PATH" + "}" == "ENV{ID_PATH}";
    assert "ENV{" + "ID_SERIAL" + "}" == "ENV{ID_SERIAL}";
  }

  lemma MoreEnvSubjects(d: Device, action: string, node: Node)
    ensures Subject(d, action, node, "ENV{ID_MODEL}") == Lookup(d.env, "ID_MODEL")
    ensures Subject(d, action, node, "ENV{ID_REVISION}") == Lookup(d.env, "ID_REVISION")
  {
    hide Subject;
    EnvKey(d, action, node, "ID_MODEL");
    EnvKey(d, action, node, "ID_REVISION");
    assert "ENV{" + "ID_MODEL" + "}" == "ENV{ID_MODEL}";
    assert "ENV{" + "ID_REVISION" + "}" == "ENV{ID_REVISION}";
  }

  lemma IsDriveHolds(d: Device, action: string, node: Node)
    ensures AllHold(d, action, node, [Pair("ENV{ID_CDROM}", "==", "?*")])
      <==> Lookup(d.env, "ID_CDROM") !in {None, Some("")}
  {
    hide Subject, AllHold, Fits, Lookup;
    var s := Lookup(d.env, "ID_CDROM");
    EnvSubjects(d, action, node);
    AllHoldOne(d, action, node, Pair("ENV{ID_CDROM}", "==", "?*"));
    if s.Some? {
      SomethingFits(s.value);
    }
  }

  lemma DrivePairsHold(r: CdRequest, d: Device, action: string, node: Node)
    requires LiteralCd(r)
    ensures AllHold(d, action, node, [Pair("ENV{ID_CDROM}", "==", "?*")]) && AllHold(d, action, node, DrivePairs(r))
      <==> DriveFits(r, d)
  {
    hide Subject, AllHold, Literal, Lookup, Holds;
    var p, s := Pair("ENV{ID_PATH}", "==", r.path), Pair("ENV{ID_SERIAL}", "==", r.serial);
    var m, v := Pair("ENV{ID_MODEL}", "==", r.model), Pair("ENV{ID_REVISION}", "==", r.revision);
    IsDriveHolds(d, action, node);
    EnvSubjects(d, action, node);
    MoreEnvSubjects(d, action, node);
    LiteralHolds(d, action, node, "ENV{ID_PATH}", r.path);
    LiteralHolds(d, action, node, "ENV{ID_SERIAL}", r.serial);
    LiteralHolds(d, action, node, "ENV{ID_MODEL}", r.model);
    LiteralHolds(d, action, node, "ENV{ID_REVISION}", r.revision);
    AllHoldOne(d, action, node, p);
    AllHoldOne(d, action, node, s);
    AllHoldOne(d, action, node, m);
    AllHoldOne(d, action, node, v);
    AllHoldConcat(d, action, node, [m], [v]);
    assert [m] + [v] == [m, v];
  }

  /** A rule written for `r` applies to exactly the drives asked for. */
  lemma CdRuleApplies(r: CdRequest, link: string, d: Device, action: string)
    requires LiteralCd(r) && CdKeys(r).Some? && '\"' !in link && d.chain != []
    ensures Applies(Render(CdRule(CD_HEAD + CdKeys(r).value, link)), d, action) <==> DriveFits(r, d)
  {
    hide AllHold, LiteralCd, DrivePairs, Render, CdKeys, Pairs, DriveFits, CD_HEAD;
    var s, g := Pair("SYMLINK", "+=", link), Pair("ENV{GENERATED}", "=", "1");
    var h := [Pair("ENV{ID_CDROM}", "==", "?*")];
    CdRuleReads(r, link);
    assert "+="[0] != "=="[0] && |"="| != |"=="|;
    forall i | 0 <= i < |d.chain|
      ensures AllHold(d, action, d.chain[i], h + (DrivePairs(r) + [s, g])) <==> DriveFits(r, d)
    {
      var node := d.chain[i];
      DrivePairsHold(r, d, action, node);
      AllHoldOne(d, action, node, s);
      AllHoldOne(d, action, node, g);
      AllHoldConcat(d, action, node, [s], [g]);
      assert [s] + [g] == [s, g];
      AllHoldConcat(d, action, node, DrivePairs(r), [s, g]);
      AllHoldConcat(d, action, node, h, DrivePairs(r) + [s, g]);
    }
    assert AllHold(d, action, d.chain[0], h + (DrivePairs(r) + [s, g])) <==> DriveFits(r, d);
  }

  /** Every rule in the lines a run of write_cd_rules writes is one for the drives asked for. */
  lemma CdPlanApplies(r: CdRequest, header: bool, text: seq<string>, d: Device, action: string)
    requires LiteralCd(r) && CdKeys(r).Some? && d.chain != [] && CdPlan(r, header, text).Write?
    requires forall line :: line in CdPlan(r, header, text).lines && IsRule(line) ==> '\"' !in line.name
    ensures forall line :: line in CdPlan(r, header, text).lines && IsRule(line) ==>
      (Applies(Render(line), d, action) <==> DriveFits(r, d))
  {
    hide CdKeys, Render, Applies, DriveFits, LiteralCd, CD_HEAD;
    forall line | line in CdPlan(r, header, text).lines && IsRule(line)
      ensures Applies(Render(line), d, action) <==> DriveFits(r, d)
    {
      OnlyCdRules(r, header, text, line);
      CdRuleApplies(r, line.name, d, action);
    }
  }

  lemma OnlyCdRules(r: CdRequest, header: bool, text: seq<string>, line: Line)
    requires CdKeys(r).Some? && CdPlan(r, header, text).Write?
    requires line in CdPlan(r, header, text).lines && IsRule(line)
    ensures line == CdRule(CD_HEAD + CdKeys(r).value, line.name)
  {
    hide CdKeys, Scan, CD_HEAD;
  }

  /** The environment in which udev starts the script for the drive, as far as it is set. */
  predicate IsDrive(r: CdRequest, d: Device) {
    && Asked(r.cdrom, d.env, "ID_CDROM") && Asked(r.path, d.env, "ID_PATH") && Asked(r.serial, d.env, "ID_SERIAL")
    && Asked(r.model, d.env, "ID_MODEL") && Asked(r.revision, d.env, "ID_REVISION")
  }

  /** A drive's own rules apply to it. */
  lemma OwnDrive(r: CdRequest, link: string, d: Device, action: string)
    requires LiteralCd(r) && CdKeys(r).Some? && '\"' !in link && d.chain != [] && IsDrive(r, d)
    ensures Applies(Render(CdRule(CD_HEAD + CdKeys(r).value, link)), d, action)
  {
    hide Applies, Render, LiteralCd, CD_HEAD;
    CdRuleApplies(r, link, d, action);
    MethodsDiffer();
  }

  // ---------- which drives get which links, and which get none ----------

  /** The script gives up before the lock exactly if it cannot tell the drive by the method asked for. */
  lemma CdExitsExactly(r: CdRequest)
    ensures CdKeys(r).None? <==>
      || r.devpath == "" || r.cdrom == "" || r.method_ !in {"", "by-path", "by-id"}
      || (r.method_ in {"", "by-path"} && r.path == "")
      || (r.method_ == "by-id" && r.serial == "" && (r.model == "" || r.revision == ""))
  {
    MethodsDiffer();
  }

  /** Which of the four links a drive gets: cdrom always, the others by what it can do. */
  lemma LinksExactly(r: CdRequest, k: nat, stem: string)
    requires stem in FAMILIES
    ensures stem + LinkSuffix(k) in LinksOf(r, k) <==>
      || stem == "cdrom"
      || (stem == "cdrw" && (r.cdR || r.cdRw))
      || (stem == "dvd" && r.dvd)
      || (stem == "dvdrw" && (r.dvdR || r.dvdRw || r.dvdRam))
  {
    hide LinkSuffix;
    var n := LinkSuffix(k);
    StemsDiffer();
    LinkIs("cdrom", k);
    LinkIs("cdrw", k);
    LinkIs("dvd", k);
    LinkIs("dvdrw", k);
    LinksInOrder(r, k);
  }

  lemma LinksInOrder(r: CdRequest, k: nat)
    ensures var n, links := LinkSuffix(k), LinksOf(r, k);
      && "cdrom" + n in links
      && ("cdrw" + n in links || !(r.cdR || r.cdRw))
      && ("dvd" + n in links || !r.dvd)
      && ("dvdrw" + n in links || !(r.dvdR || r.dvdRw || r.dvdRam))
      && forall l :: l in links ==>
           || l == "cdrom" + n || (l == "cdrw" + n && (r.cdR || r.cdRw)) || (l == "dvd" + n && r.dvd)
           || (l == "dvdrw" + n && (r.dvdR || r.dvdRw || r.dvdRam))
  {
    hide LinkSuffix;
  }

  // ---------- the whole text of a run ----------

  const NET_HEADER := [
    "#" + " This file was automatically generated by the /lib/udev/write_net_rules",
    "#" + " program, run by the persistent-net-generator.rules rules file.",
    "#" + "",
    "#" + " You can modify it, as long as you keep each rule on a single",
    "#" + " line, and change only the value of the NAME= key."]

  const CD_HEADER := [
    "#" + " This file was automatically generated by the /lib/udev/write_cd_rules",
    "#" + " program, run by the cd-aliases-generator.rules rules file.",
    "#" + "",
    "#" + " You can modify it, as long as you keep each rule on a single",
    "#" + " line, and set the $GENERATED variable.",
    ""]

  lemma RenderConcat(a: seq<Line>, b: seq<Line>)
    ensures RenderAll(a + b) == RenderAll(a) + RenderAll(b)
  {
    hide Render, RenderAll;
    var x, y := RenderAll(a + b), RenderAll(a) + RenderAll(b);
    forall i | 0 <= i < |a + b|
      ensures x[i] == y[i]
    {
      assert (a + b)[i] == if i < |a| then a[i] else b[i - |a|];
    }
  }

  lemma NetBannerText()
    ensures RenderAll(NET_BANNER) == NET_HEADER
  {
  }

  lemma CdBannerText()
    ensures RenderAll(CD_BANNER) == CD_HEADER
  {
  }

  lemma CommentText(text: string)
    ensures RenderAll(CommentLines(text)) == if text == "" then [] else ["# " + text]
  {
  }

  /** The banner if it is due, an empty line, the comment if there is one, and the rule. */
  lemma NetTextIs(r: NetRequest, header: bool, text: seq<string>)
    requires NetPlan(r, header, text).Write?
    ensures NetName(r, text).Some?
    ensures var c := if r.custom != "" then r.comment + " (custom name provided by external tool)" else r.comment;
      RenderAll(NetPlan(r, header, text).lines)
      == (if header then NET_HEADER else []) + [""] + (if c == "" then [] else ["# " + c])
         + [Render(NetRule(NetKeys(r) + (KERNEL + Stem(r.iface) + "*\""), NetName(r, text).value))]
  {
    hide NetKeys, NetName, RenderAll, Stem;
    var rule := NetRule(NetKeys(r) + (KERNEL + Stem(r.iface) + "*\""), NetName(r, text).value);
    var c := NetComment(r);
    NetTextOf(header, rule, c);
  }

  lemma NetTextOf(header: bool, rule: Line, c: string)
    requires rule.NetRule?
    ensures RenderAll(NetRuleLines(header, rule.keys, rule.name, c))
      == (if header then NET_HEADER else []) + [""] + (if c == "" then [] else ["# " + c]) + [Render(rule)]
  {
    hide NET_BANNER, NET_HEADER;
    var a := if header then NET_BANNER else [];
    NetBannerText();
    CommentText(c);
    RenderConcat(a, [Blank]);
    RenderConcat(a + [Blank], CommentLines(c));
    RenderConcat(a + [Blank] + CommentLines(c), [rule]);
  }

  /** The rules of one drive, without comments. */
  function RuleTexts(keys: string, links: seq<string>): (text: seq<string>)
    ensures |text| == |links| && forall i :: 0 <= i < |links| ==> text[i] == Render(CdRule(keys, links[i]))
  {
    seq(|links|, i requires 0 <= i < |links| => Render(CdRule(keys, links[i])))
  }

  /** The banner if it is due, the drive's model and path as a comment, and a rule for each link. */
  lemma CdTextIs(r: CdRequest, header: bool, lines: seq<Line>)
    requires CdKeys(r).Some? && GoodLines(CdKind, lines)
    ensures var p := CdPlan(r, header, RenderAll(lines));
      && p.Write?
      && RenderAll(p.lines)
         == (if header then CD_HEADER else []) + ["# " + (r.model + " (" + r.path + ")")]
            + RuleTexts(CD_HEAD + CdKeys(r).value, LinksOf(r, NextCd(Names(lines))))
  {
    hide CdKeys, Scan, CD_HEAD, LinkSuffix, Names, GoodLines, NextCd, RenderAll, CD_HEADER, Render;
    var k := NextCd(Names(lines));
    var n, keys := LinkSuffix(k), CD_HEAD + CdKeys(r).value;
    CdAllocates(lines);
    CdLinesText(r, header, keys, n);
  }

  lemma CdPart(before: seq<Line>, head: seq<string>, links: seq<string>, wanted: bool, keys: string, link: string)
    requires RenderAll(before) == head + RuleTexts(keys, links)
    ensures RenderAll(before + (if wanted then CdRuleLines(false, keys, link, "") else []))
      == head + RuleTexts(keys, links + (if wanted then [link] else []))
  {
    hide Render;
    RenderConcat(before, if wanted then CdRuleLines(false, keys, link, "") else []);
  }

  lemma CdLinesText(r: CdRequest, header: bool, keys: string, n: string)
    ensures var c := r.model + " (" + r.path + ")";
      var links := ["cdrom" + n] + (if r.cdR || r.cdRw then ["cdrw" + n] else [])
        + (if r.dvd then ["dvd" + n] else []) + (if r.dvdR || r.dvdRw || r.dvdRam then ["dvdrw" + n] else []);
      RenderAll(CdLines(r, header, keys, n, c))
      == (if header then CD_HEADER else []) + ["# " + c] + RuleTexts(keys, links)
  {
    hide Render, RenderAll, CD_BANNER, CD_HEADER, RuleTexts, CdRuleLines;
    var c := r.model + " (" + r.path + ")";
    var head := (if header then CD_HEADER else []) + ["# " + c];
    var l0, t0 := CdRuleLines(header, keys, "cdrom" + n, c), ["cdrom" + n];
    CdFirst(header, keys, "cdrom" + n, c);
    var w1, w3 := r.cdR || r.cdRw, r.dvdR || r.dvdRw || r.dvdRam;
    CdPart(l0, head, t0, w1, keys, "cdrw" + n);
    var l1 := l0 + (if w1 then CdRuleLines(false, keys, "cdrw" + n, "") else []);
    var t1 := t0 + (if w1 then ["cdrw" + n] else []);
    CdPart(l1, head, t1, r.dvd, keys, "dvd" + n);
    var l2 := l1 + (if r.dvd then CdRuleLines(false, keys, "dvd" + n, "") else []);
    var t2 := t1 + (if r.dvd then ["dvd" + n] else []);
    CdPart(l2, head, t2, w3, keys, "dvdrw" + n);
  }

  lemma CdFirst(header: bool, keys: string, link: string, c: string)
    requires c != ""
    ensures RenderAll(CdRuleLines(header, keys, link, c))
      == (if header then CD_HEADER else []) + ["# " + c] + RuleTexts(keys, [link])
  {
    hide CD_BANNER, CD_HEADER;
    var a := if header then CD_BANNER else [];
    CdBannerText();
    CommentText(c);
    RenderConcat(a, CommentLines(c));
    RenderConcat(a + CommentLines(c), [CdRule(keys, link)]);
  }

  /** A name asked for from outside is written as it is, taken or not. */
  lemma CustomName(r: NetRequest, header: bool, text: seq<string>)
    requires r.custom != "" && NetKeys(r) != ""
    ensures var p := NetPlan(r, header, text); p.Write? && Names(p.lines) == [r.custom]
  {
    hide NetRuleLines, NetKeys, Names;
    NamesOfNetRule(header, NetKeys(r) + (KERNEL + Stem(r.iface) + "*\""), r.custom, NetComment(r));
  }
}
