/**
 * A declared container, the spec it is created from and the text its config hash is taken
 * of. The hash guards recreation, so the text must tell apart any two configs whose specs
 * differ, and must not depend on the order in which a map was filled.
 */
module ContainerConfig {
  import opened Wrappers
  import opened Text
  import opened Json
  import opened Sorting
  import opened ConfigRules

  datatype Port = Port(hostIP: string, hostPort: int, containerPort: int, protocol: string)

  datatype Volume = Volume(hostPath: string, containerPath: string, readOnly: bool, selinux: string)

  // validateContainer rejects any interfaces entry, so of that field only nil or empty
  // reaches the hash.
  datatype Config = Config(
    name: string, image: string, user: string, env: Slice<Entry>, ports: Slice<Port>, volumes: Slice<Volume>,
    nilInterfaces: bool, command: Slice<string>, restart: string, networkMode: string, readOnly: bool,
    capAdd: Slice<string>, capDrop: Slice<string>)
  {
    predicate Valid() {
      env.Items? ==> DistinctKeys(env.items)
    }
  }

  function List<T>(v: Slice<T>): seq<T> {
    if v.Nil? then [] else v.items
  }

  /* ---- the hashed text ---- */

  datatype Key =
    | Name | Image | User | Env | Ports | Volumes | Interfaces | Command | Restart
    | NetworkMode | ReadOnly | CapAdd | CapDrop | Close
    | HostIP | HostPort | ContainerPort | Protocol
    | HostPath | ContainerPath | VolumeReadOnly | SELinux

  function K(k: Key): string {
    match k
    case Name => "{\"name\":"
    case Image => ",\"image\":"
    case User => ",\"user\":"
    case Env => ",\"env\":"
    case Ports => ",\"ports\":"
    case Volumes => ",\"volumes\":"
    case Interfaces => ",\"interfaces\":"
    case Command => ",\"command\":"
    case Restart => ",\"restart\":"
    case NetworkMode => ",\"network_mode\":"
    case ReadOnly => ",\"read_only\":true"
    case CapAdd => ",\"cap_add\":"
    case CapDrop => ",\"cap_drop\":"
    case Close => "}"
    case HostIP => "{\"host_ip\":"
    case HostPort => ",\"host_port\":"
    case ContainerPort => "\"container_port\":"
    case Protocol => "\"protocol\":"
    case HostPath => "{\"host_path\":"
    case ContainerPath => ",\"container_path\":"
    case VolumeReadOnly => ",\"read_only\":"
    case SELinux => ",\"selinux\":"
  }

  function Bool(b: bool): string {
    if b then "true" else "false"
  }

  function EntryText(e: Entry): string {
    Str(e.0) + (":" + Str(e.1))
  }

  function PortText(p: Port): string {
    K(HostIP) + (Str(p.hostIP) + (K(HostPort) + (Number(p.hostPort) + ("," + (
      K(ContainerPort) + (Number(p.containerPort) + ("," + (K(Protocol) + (Str(p.protocol) + K(Close))))))))))
  }

  function VolumeText(v: Volume): string {
    K(HostPath) + (Str(v.hostPath) + (K(ContainerPath) + (Str(v.containerPath) + (
      K(VolumeReadOnly) + (Bool(v.readOnly) + (K(SELinux) + (Str(v.selinux) + K(Close))))))))
  }

  function EnvText(env: Slice<Entry>): string {
    SliceText(EntryText, '{', '}', if env.Nil? then Nil else Items(Sort(env.items)))
  }

  // The text from field i on; the four omitempty fields vanish when empty.
  function Rest(c: Config, i: nat): string
    decreases 13 - i
  {
    match i
    case 0 => K(Name) + (Str(c.name) + Rest(c, 1))
    case 1 => K(Image) + (Str(c.image) + Rest(c, 2))
    case 2 => K(User) + (Str(c.user) + Rest(c, 3))
    case 3 => K(Env) + (EnvText(c.env) + Rest(c, 4))
    case 4 => K(Ports) + (SliceText(PortText, '[', ']', c.ports) + Rest(c, 5))
    case 5 => K(Volumes) + (SliceText(VolumeText, '[', ']', c.volumes) + Rest(c, 6))
    case 6 => K(Interfaces) + ((if c.nilInterfaces then "null" else "[]") + Rest(c, 7))
    case 7 => K(Command) + (SliceText(Str, '[', ']', c.command) + Rest(c, 8))
    case 8 => K(Restart) + (Str(c.restart) + Rest(c, 9))
    case 9 => if c.networkMode == "" then Rest(c, 10) else K(NetworkMode) + (Str(c.networkMode) + Rest(c, 10))
    case 10 => if !c.readOnly then Rest(c, 11) else K(ReadOnly) + Rest(c, 11)
    case 11 =>
      if List(c.capAdd) == [] then Rest(c, 12) else K(CapAdd) + (SliceText(Str, '[', ']', c.capAdd) + Rest(c, 12))
    case 12 => if List(c.capDrop) == [] then K(Close) else K(CapDrop) + (SliceText(Str, '[', ']', c.capDrop) + K(Close))
    case _ => K(Close)
  }

  function HashText(c: Config): string {
    Rest(c, 0)
  }

  // The text in full: an object with the fields under these names in this order, the last
  // four (TailInFull) only when they are set.
  lemma TextInFull(c: Config)
    ensures HashText(c) ==
            "{\"name\":" + (Str(c.name) + (",\"image\":" + (Str(c.image) + (",\"user\":" + (Str(c.user) + (
              ",\"env\":" + (EnvText(c.env) + (
              ",\"ports\":" + (SliceText(PortText, '[', ']', c.ports) + (
              ",\"volumes\":" + (SliceText(VolumeText, '[', ']', c.volumes) + (
              ",\"interfaces\":" + ((if c.nilInterfaces then "null" else "[]") + (
              ",\"command\":" + (SliceText(Str, '[', ']', c.command) + (
              ",\"restart\":" + (Str(c.restart) + Rest(c, 9))))))))))))))))))
  {
    hide K, Str, SliceText, EnvText;
    KeysInFull();
  }

  lemma TailInFull(c: Config)
    ensures Rest(c, 9) ==
            if c.networkMode == "" then Rest(c, 10) else ",\"network_mode\":" + (Str(c.networkMode) + Rest(c, 10))
    ensures Rest(c, 10) == if !c.readOnly then Rest(c, 11) else ",\"read_only\":true" + Rest(c, 11)
    ensures Rest(c, 11) ==
            if c.capAdd.Nil? || c.capAdd.items == [] then Rest(c, 12)
            else ",\"cap_add\":" + (SliceText(Str, '[', ']', c.capAdd) + Rest(c, 12))
    ensures Rest(c, 12) ==
            if c.capDrop.Nil? || c.capDrop.items == [] then "}"
            else ",\"cap_drop\":" + (SliceText(Str, '[', ']', c.capDrop) + "}")
  {
    hide K, Str, SliceText;
    KeysInFull();
  }

  lemma KeysInFull()
    ensures K(Name) == "{\"name\":" && K(Image) == ",\"image\":" && K(User) == ",\"user\":" && K(Env) == ",\"env\":"
    ensures K(Ports) == ",\"ports\":" && K(Volumes) == ",\"volumes\":" && K(Interfaces) == ",\"interfaces\":"
    ensures K(Command) == ",\"command\":" && K(Restart) == ",\"restart\":" && K(NetworkMode) == ",\"network_mode\":"
    ensures K(ReadOnly) == ",\"read_only\":true" && K(CapAdd) == ",\"cap_add\":" && K(CapDrop) == ",\"cap_drop\":"
    ensures K(Close) == "}" && K(HostIP) == "{\"host_ip\":" && K(HostPort) == ",\"host_port\":"
    ensures K(ContainerPort) == "\"container_port\":" && K(Protocol) == "\"protocol\":"
    ensures K(HostPath) == "{\"host_path\":" && K(ContainerPath) == ",\"container_path\":"
    ensures K(VolumeReadOnly) == ",\"read_only\":" && K(SELinux) == ",\"selinux\":"
  {
  }

  lemma PartsInFull(p: Port, v: Volume, e: Entry)
    ensures PortText(p) ==
            "{\"host_ip\":" + (Str(p.hostIP) + (",\"host_port\":" + (Number(p.hostPort) + ("," + (
              "\"container_port\":" + (Number(p.containerPort) + ("," + (
              "\"protocol\":" + (Str(p.protocol) + "}")))))))))
    ensures VolumeText(v) ==
            "{\"host_path\":" + (Str(v.hostPath) + (",\"container_path\":" + (Str(v.containerPath) + (
              ",\"read_only\":" + ((if v.readOnly then "true" else "false") + (
              ",\"selinux\":" + (Str(v.selinux) + "}")))))))
    ensures EntryText(e) == Str(e.0) + (":" + Str(e.1))
  {
    hide K, Str, Number;
    KeysInFull();
  }

  // What a config says, with map order forgotten and nil capability lists merged with empty.
  datatype Meaning = Meaning(
    name: string, image: string, user: string, env: Option<map<string, string>>, ports: Slice<Port>,
      volumes: Slice<Volume>,
    nilInterfaces: bool, command: Slice<string>, restart: string, networkMode: string, readOnly: bool,
    capAdd: seq<string>, capDrop: seq<string>)

  function EnvOf(env: Slice<Entry>): Option<map<string, string>>
    requires env.Items? ==> DistinctKeys(env.items)
  {
    if env.Nil? then None else Some(ToMap(env.items))
  }

  function MeaningOf(c: Config): Meaning
    requires c.Valid()
  {
    Meaning(c.name, c.image, c.user, EnvOf(c.env), c.ports, c.volumes, c.nilInterfaces, c.command, c.restart,
            c.networkMode, c.readOnly, List(c.capAdd), List(c.capDrop))
  }

  /* ---- reading the text back ---- */

  // Dropping one key and one string off two equal texts.
  lemma StrField(k: string, x: string, y: string, t: string, u: string, r: string, s: string)
    requires k + (Str(x) + t) + r == k + (Str(y) + u) + s
    ensures x == y && t + r == u + s
  {
    hide Str;
    assert k + (Str(x) + t) + r == k + (Str(x) + (t + r));
    assert k + (Str(y) + u) + s == k + (Str(y) + (u + s));
    DropHead(k, Str(x) + (t + r), Str(y) + (u + s));
    StrStep(x, y, t + r, u + s);
  }

  lemma NumberField(k: string, m: int, n: int, t: string, u: string, r: string, s: string)
    requires k + (Number(m) + ("," + t)) + r == k + (Number(n) + ("," + u)) + s
    ensures m == n && t + r == u + s
  {
    hide Number;
    assert k + (Number(m) + ("," + t)) + r == k + (Number(m) + "," + (t + r));
    assert k + (Number(n) + ("," + u)) + s == k + (Number(n) + "," + (u + s));
    DropHead(k, Number(m) + "," + (t + r), Number(n) + "," + (u + s));
    NumberUnique(m, n, t + r, u + s);
  }

  lemma BoolField(k: string, a: bool, b: bool, t: string, u: string, r: string, s: string)
    requires k + (Bool(a) + t) + r == k + (Bool(b) + u) + s
    ensures a == b && t + r == u + s
  {
    assert k + (Bool(a) + t) + r == k + (Bool(a) + (t + r));
    assert k + (Bool(b) + u) + s == k + (Bool(b) + (u + s));
    DropHead(k, Bool(a) + (t + r), Bool(b) + (u + s));
    assert (Bool(a) + (t + r))[0] == (if a then 't' else 'f') && (Bool(b) + (u + s))[0] == (if b then 't' else 'f');
    DropHead(Bool(a), t + r, u + s);
  }

  lemma EntryUnique(x: Entry, y: Entry, r: string, s: string)
    requires EntryText(x) + r == EntryText(y) + s
    ensures x == y && r == s
  {
    hide Str;
    assert EntryText(x) == "" + (Str(x.0) + (":" + Str(x.1))) && EntryText(y) == "" + (Str(y.0) + (":" + Str(y.1)));
    StrField("", x.0, y.0, ":" + Str(x.1), ":" + Str(y.1), r, s);
    assert ":" + Str(x.1) == ":" + (Str(x.1) + "") && ":" + Str(y.1) == ":" + (Str(y.1) + "");
    StrField(":", x.1, y.1, "", "", r, s);
    assert "" + r == r && "" + s == s;
  }

  lemma PortUnique(x: Port, y: Port, r: string, s: string)
    requires PortText(x) + r == PortText(y) + s
    ensures x == y && r == s
  {
    hide Str, Number, K;
    var x4, y4 := Str(x.protocol) + K(Close), Str(y.protocol) + K(Close);
    var x3, y3 := K(Protocol) + x4, K(Protocol) + y4;
    var x2 := K(ContainerPort) + (Number(x.containerPort) + ("," + x3));
    var y2 := K(ContainerPort) + (Number(y.containerPort) + ("," + y3));
    var x1, y1 := K(HostPort) + (Number(x.hostPort) + ("," + x2)), K(HostPort) + (Number(y.hostPort) + ("," + y2));
    StrField(K(HostIP), x.hostIP, y.hostIP, x1, y1, r, s);
    NumberField(K(HostPort), x.hostPort, y.hostPort, x2, y2, r, s);
    NumberField(K(ContainerPort), x.containerPort, y.containerPort, x3, y3, r, s);
    StrField(K(Protocol), x.protocol, y.protocol, K(Close), K(Close), r, s);
    DropHead(K(Close), r, s);
  }

  lemma VolumeUnique(x: Volume, y: Volume, r: string, s: string)
    requires VolumeText(x) + r == VolumeText(y) + s
    ensures x == y && r == s
  {
    hide Str, Bool, K;
    var x3, y3 := K(SELinux) + (Str(x.selinux) + K(Close)), K(SELinux) + (Str(y.selinux) + K(Close));
    var x2, y2 := K(VolumeReadOnly) + (Bool(x.readOnly) + x3), K(VolumeReadOnly) + (Bool(y.readOnly) + y3);
    var x1, y1 := K(ContainerPath) + (Str(x.containerPath) + x2), K(ContainerPath) + (Str(y.containerPath) + y2);
    StrField(K(HostPath), x.hostPath, y.hostPath, x1, y1, r, s);
    StrField(K(ContainerPath), x.containerPath, y.containerPath, x2, y2, r, s);
    BoolField(K(VolumeReadOnly), x.readOnly, y.readOnly, x3, y3, r, s);
    StrField(K(SELinux), x.selinux, y.selinux, K(Close), K(Close), r, s);
    DropHead(K(Close), r, s);
  }

  lemma PortStarts(x: Port)
    ensures PortText(x) != "" && PortText(x)[0] == '{'
  {
    hide Str, Number;
    assert K(HostIP)[0] == '{';
  }

  lemma VolumeStarts(x: Volume)
    ensures VolumeText(x) != "" && VolumeText(x)[0] == '{'
  {
    hide Str, Bool;
    assert K(HostPath)[0] == '{';
  }

  lemma ElementCodes()
    ensures PrefixCode(Str) && PrefixCode(EntryText) && PrefixCode(PortText) && PrefixCode(VolumeText)
    ensures Opens(Str, ']') && Opens(EntryText, '}') && Opens(PortText, ']') && Opens(VolumeText, ']')
  {
    StrPrefixCode();
    ElementStarts();
    hide Str, EntryText, PortText, VolumeText;
    forall x, y, r, s | EntryText(x) + r == EntryText(y) + s ensures x == y && r == s {
      EntryUnique(x, y, r, s);
    }
    forall x, y, r, s | PortText(x) + r == PortText(y) + s ensures x == y && r == s {
      PortUnique(x, y, r, s);
    }
    forall x, y, r, s | VolumeText(x) + r == VolumeText(y) + s ensures x == y && r == s {
      VolumeUnique(x, y, r, s);
    }
  }

  lemma ElementStarts()
    ensures Opens(Str, ']') && Opens(EntryText, '}') && Opens(PortText, ']') && Opens(VolumeText, ']')
  {
    hide Escape;
    forall x: Entry ensures EntryText(x) != "" && EntryText(x)[0] == '"' {
    }
    hide Str, EntryText;
    forall x: Port ensures PortText(x) != "" && PortText(x)[0] == '{' {
      PortStarts(x);
    }
    forall x: Volume ensures VolumeText(x) != "" && VolumeText(x)[0] == '{' {
      VolumeStarts(x);
    }
    hide PortText, VolumeText;
  }

  lemma SliceField<T(!new)>(k: string, f: T -> string, open: char, close: char, v: Slice<T>, w: Slice<T>, t: string,
      u: string)
    requires PrefixCode(f) && Opens(f, close) && close != ',' && open != 'n'
    requires k + (SliceText(f, open, close, v) + t) == k + (SliceText(f, open, close, w) + u)
    ensures v == w && t == u
  {
    hide SliceText;
    DropHead(k, SliceText(f, open, close, v) + t, SliceText(f, open, close, w) + u);
    SliceUnique(f, open, close, v, w, t, u);
  }

  lemma ConfigStrField(k: string, x: string, y: string, t: string, u: string)
    requires k + (Str(x) + t) == k + (Str(y) + u)
    ensures x == y && t == u
  {
    hide Str;
    DropHead(k, Str(x) + t, Str(y) + u);
    StrStep(x, y, t, u);
  }

  // The omitempty keys never read as one another, nor as the closing brace.
  predicate IsTail(k: Key) {
    k.NetworkMode? || k.ReadOnly? || k.CapAdd? || k.CapDrop? || k.Close?
  }

  lemma TailKeysDiffer(j: Key, k: Key, t: string)
    requires IsTail(j) && IsTail(k) && K(j) <= t && K(k) <= t
    ensures j == k
  {
    assert |t| > 0 && t[0] == K(j)[0] == K(k)[0];
    assert !j.Close? ==> |K(j)| > 6 && t[2] == K(j)[2] && t[6] == K(j)[6];
    assert !k.Close? ==> |K(k)| > 6 && t[2] == K(k)[2] && t[6] == K(k)[6];
  }

  function TailKey(c: Config, i: nat): Key
    requires 9 <= i
    decreases 13 - i
  {
    if i == 9 && c.networkMode != "" then NetworkMode
    else if i == 10 && c.readOnly then ReadOnly
    else if i == 11 && List(c.capAdd) != [] then CapAdd
    else if i == 12 && List(c.capDrop) != [] then CapDrop
    else if i >= 12 then Close
    else TailKey(c, i + 1)
  }

  lemma {:induction false} TailStarts(c: Config, i: nat)
    requires 9 <= i
    ensures IsTail(TailKey(c, i)) && K(TailKey(c, i)) <= Rest(c, i)
    decreases 13 - i
  {
    hide K, Str, SliceText;
    if i < 12 {
      TailStarts(c, i + 1);
    }
  }

  // Equal texts from an omitempty field on start with the same key.
  lemma SameTailKey(c: Config, d: Config, i: nat)
    requires 9 <= i && Rest(c, i) == Rest(d, i)
    ensures TailKey(c, i) == TailKey(d, i)
  {
    TailStarts(c, i);
    TailStarts(d, i);
    hide K, Rest, TailKey;
    TailKeysDiffer(TailKey(c, i), TailKey(d, i), Rest(c, i));
  }

  // From field 9 on, equal texts mean equal optional fields.
  lemma TailUnique(c: Config, d: Config)
    requires Rest(c, 9) == Rest(d, 9)
    ensures c.networkMode == d.networkMode && c.readOnly == d.readOnly
    ensures List(c.capAdd) == List(d.capAdd) && List(c.capDrop) == List(d.capDrop)
  {
    NetworkModeUnique(c, d);
    ReadOnlyUnique(c, d);
    CapAddUnique(c, d);
    CapDropUnique(c, d);
  }

  lemma NetworkModeUnique(c: Config, d: Config)
    requires Rest(c, 9) == Rest(d, 9)
    ensures c.networkMode == d.networkMode && Rest(c, 10) == Rest(d, 10)
  {
    SameTailKey(c, d, 9);
    LaterTail(c, 9);
    LaterTail(d, 9);
    hide K, Str, SliceText;
    if c.networkMode != "" {
      ConfigStrField(K(NetworkMode), c.networkMode, d.networkMode, Rest(c, 10), Rest(d, 10));
    }
  }

  lemma ReadOnlyUnique(c: Config, d: Config)
    requires Rest(c, 10) == Rest(d, 10)
    ensures c.readOnly == d.readOnly && Rest(c, 11) == Rest(d, 11)
  {
    SameTailKey(c, d, 10);
    LaterTail(c, 10);
    LaterTail(d, 10);
    hide K, Str, SliceText;
    if c.readOnly {
      DropHead(K(ReadOnly), Rest(c, 11), Rest(d, 11));
    }
  }

  lemma CapAddUnique(c: Config, d: Config)
    requires Rest(c, 11) == Rest(d, 11)
    ensures List(c.capAdd) == List(d.capAdd) && Rest(c, 12) == Rest(d, 12)
  {
    SameTailKey(c, d, 11);
    LaterTail(c, 11);
    LaterTail(d, 11);
    ElementCodes();
    hide K, Str, SliceText, PrefixCode, Opens;
    if List(c.capAdd) != [] {
      SliceField(K(CapAdd), Str, '[', ']', c.capAdd, d.capAdd, Rest(c, 12), Rest(d, 12));
    }
  }

  lemma CapDropUnique(c: Config, d: Config)
    requires Rest(c, 12) == Rest(d, 12)
    ensures List(c.capDrop) == List(d.capDrop)
  {
    SameTailKey(c, d, 12);
    ElementCodes();
    hide K, Str, SliceText, PrefixCode, Opens;
    if List(c.capDrop) != [] {
      SliceField(K(CapDrop), Str, '[', ']', c.capDrop, d.capDrop, K(Close), K(Close));
    }
  }

  // A field's own key never heads the text behind it.
  lemma LaterTail(c: Config, i: nat)
    requires 9 <= i < 12
    ensures i == 9 ==> !TailKey(c, 10).NetworkMode?
    ensures i == 10 ==> !TailKey(c, 11).ReadOnly?
    ensures i == 11 ==> !TailKey(c, 12).CapAdd?
  {
  }

  // Fields 0 to 8 are read off in order.
  lemma HeadUnique(c: Config, d: Config)
    requires HashText(c) == HashText(d)
    ensures c.name == d.name && c.image == d.image && c.user == d.user
    ensures EnvText(c.env) + Rest(c, 4) == EnvText(d.env) + Rest(d, 4)
  {
    hide K, Str, EnvText, SliceText;
    ConfigStrField(K(Name), c.name, d.name, Rest(c, 1), Rest(d, 1));
    ConfigStrField(K(Image), c.image, d.image, Rest(c, 2), Rest(d, 2));
    ConfigStrField(K(User), c.user, d.user, Rest(c, 3), Rest(d, 3));
    DropHead(K(Env), EnvText(c.env) + Rest(c, 4), EnvText(d.env) + Rest(d, 4));
  }

  lemma EnvUnique(c: Config, d: Config)
    requires c.Valid() && d.Valid() && EnvText(c.env) + Rest(c, 4) == EnvText(d.env) + Rest(d, 4)
    ensures EnvOf(c.env) == EnvOf(d.env) && Rest(c, 4) == Rest(d, 4)
  {
    ElementCodes();
    hide Rest, SliceText, PrefixCode, Opens;
    var v := if c.env.Nil? then Nil else Items(Sort(c.env.items));
    var w := if d.env.Nil? then Nil else Items(Sort(d.env.items));
    SliceUnique(EntryText, '{', '}', v, w, Rest(c, 4), Rest(d, 4));
    if c.env.Items? {
      SortForgetsOrder(c.env.items, d.env.items);
    }
  }

  lemma MiddleUnique(c: Config, d: Config)
    requires Rest(c, 4) == Rest(d, 4)
    ensures c.ports == d.ports && c.volumes == d.volumes && c.nilInterfaces == d.nilInterfaces
    ensures c.command == d.command && c.restart == d.restart && Rest(c, 9) == Rest(d, 9)
  {
    ElementCodes();
    hide K, Str, SliceText, PrefixCode, Opens;
    SliceField(K(Ports), PortText, '[', ']', c.ports, d.ports, Rest(c, 5), Rest(d, 5));
    SliceField(K(Volumes), VolumeText, '[', ']', c.volumes, d.volumes, Rest(c, 6), Rest(d, 6));
    InterfacesUnique(c, d);
    SliceField(K(Command), Str, '[', ']', c.command, d.command, Rest(c, 8), Rest(d, 8));
    ConfigStrField(K(Restart), c.restart, d.restart, Rest(c, 9), Rest(d, 9));
  }

  lemma InterfacesUnique(c: Config, d: Config)
    requires Rest(c, 6) == Rest(d, 6)
    ensures c.nilInterfaces == d.nilInterfaces && Rest(c, 7) == Rest(d, 7)
  {
    hide K, Str, SliceText;
    var x, y := if c.nilInterfaces then "null" else "[]", if d.nilInterfaces then "null" else "[]";
    DropHead(K(Interfaces), x + Rest(c, 7), y + Rest(d, 7));
    assert (x + Rest(c, 7))[0] == x[0] && (y + Rest(d, 7))[0] == y[0];
    DropHead(x, Rest(c, 7), Rest(d, 7));
  }

  // The hashed text tells two configs apart exactly when they mean something different.
  lemma TextIsMeaning(c: Config, d: Config)
    requires c.Valid() && d.Valid()
    ensures HashText(c) == HashText(d) <==> MeaningOf(c) == MeaningOf(d)
  {
    if HashText(c) == HashText(d) {
      HeadUnique(c, d);
      EnvUnique(c, d);
      MiddleUnique(c, d);
      TailUnique(c, d);
    }
    if MeaningOf(c) == MeaningOf(d) {
      SameMeaningSameText(c, d);
    }
  }

  lemma SameMeaningSameText(c: Config, d: Config)
    requires c.Valid() && d.Valid() && MeaningOf(c) == MeaningOf(d)
    ensures HashText(c) == HashText(d)
  {
    if c.env.Items? {
      SortForgetsOrder(c.env.items, d.env.items);
    }
    assert EnvText(c.env) == EnvText(d.env);
    assert List(c.capAdd) != [] ==> c.capAdd == d.capAdd;
    assert List(c.capDrop) != [] ==> c.capDrop == d.capDrop;
    hide K, Str, SliceText, EnvText, ToMap;
    assert Rest(c, 12) == Rest(d, 12);
    assert Rest(c, 11) == Rest(d, 11);
    assert Rest(c, 10) == Rest(d, 10);
    assert Rest(c, 9) == Rest(d, 9);
    assert Rest(c, 8) == Rest(d, 8);
    assert Rest(c, 7) == Rest(d, 7);
    assert Rest(c, 6) == Rest(d, 6);
    assert Rest(c, 5) == Rest(d, 5);
    assert Rest(c, 4) == Rest(d, 4);
    assert Rest(c, 3) == Rest(d, 3);
    assert Rest(c, 2) == Rest(d, 2);
    assert Rest(c, 1) == Rest(d, 1);
  }

  /* ---- what is asked of a declared container ---- */

  predicate ValidNetworkMode(mode: string) {
    TrimSpace(mode) in {"", "host", "bridge", "none", "private", "slirp4netns", "pasta"}
  }

  predicate CapabilityChar(c: char) {
    c == '_' || 'A' <= c <= 'Z' || '0' <= c <= '9'
  }

  predicate ValidCapability(name: string) {
    var cap := TrimSpace(name);
    cap == "ALL" || ("CAP_" < cap && forall i | 0 <= i < |cap| :: CapabilityChar(cap[i]))
  }

  predicate ValidRelabel(selinux: string) {
    TrimSpace(selinux) in {"", "z", "Z"}
  }

  predicate ValidPort(p: Port) {
    ValidateContainerPort(p.hostPort).None? && ValidateContainerPort(p.containerPort).None?
  }

  predicate ValidContainer(c: Config) {
    && (forall i | 0 <= i < |List(c.ports)| :: ValidPort(List(c.ports)[i]))
    && (forall i | 0 <= i < |List(c.volumes)| :: ValidRelabel(List(c.volumes)[i].selinux))
    && ValidNetworkMode(c.networkMode)
    && (forall i | 0 <= i < |List(c.capAdd)| :: ValidCapability(List(c.capAdd)[i]))
    && (forall i | 0 <= i < |List(c.capDrop)| :: ValidCapability(List(c.capDrop)[i]))
  }

  /* ---- the spec a container is created from ---- */

  datatype PortMapping = PortMapping(hostIP: string, hostPort: nat, containerPort: nat, protocol: string)

  datatype Mount = Mount(destination: string, kind: string, source: string, options: seq<string>)

  // An absent and an empty list or map leave the same hole in the request Podman receives.
  datatype Spec = Spec(
    name: string, image: string, user: string, env: map<string, string>, command: seq<string>, ports: seq<PortMapping>,
    mounts: seq<Mount>, restartPolicy: string, labels: map<string, string>, netns: Option<string>, readOnly: bool,
    capAdd: seq<string>, capDrop: seq<string>)

  function PortMappingFromConfig(p: Port): PortMapping {
    var protocol := if p.protocol == "" then "tcp" else p.protocol;
    PortMapping(p.hostIP, ToUint16(p.hostPort), ToUint16(p.containerPort), protocol)
  }

  function MountFromVolume(v: Volume): Mount {
    var relabel := TrimSpace(v.selinux);
    Mount(v.containerPath, "bind", v.hostPath,
          ["rbind", if v.readOnly then "ro" else "rw"] + (if relabel == "" then [] else [relabel]))
  }

  function PortMappings(ports: seq<Port>): seq<PortMapping> {
    seq(|ports|, i requires 0 <= i < |ports| => PortMappingFromConfig(ports[i]))
  }

  function Mounts(volumes: seq<Volume>): seq<Mount> {
    seq(|volumes|, i requires 0 <= i < |volumes| => MountFromVolume(volumes[i]))
  }

  function Netns(networkMode: string): Option<string> {
    var mode := TrimSpace(networkMode);
    if mode == "" then None else Some(mode)
  }

  function EnvMap(env: Slice<Entry>): map<string, string>
    requires env.Items? ==> DistinctKeys(env.items)
  {
    if env.Nil? then map[] else ToMap(env.items)
  }

  function SpecOf(c: Config): Spec
    requires c.Valid()
  {
    Spec(c.name, c.image, c.user, EnvMap(c.env), List(c.command), PortMappings(List(c.ports)), Mounts(List(c.volumes)),
         c.restart, map[], Netns(c.networkMode), c.readOnly, List(c.capAdd), List(c.capDrop))
  }

  /* ---- the spec in full ---- */

  // An absent list is an empty one.
  predicate ListOf<T(==)>(xs: seq<T>, v: Slice<T>) {
    if v.Nil? then xs == [] else xs == v.items
  }

  ghost predicate EnvOfConfig(env: map<string, string>, v: Slice<Entry>) {
    if v.Nil? then env == map[] else forall k, x :: (k in env && env[k] == x) <==> (k, x) in v.items
  }

  predicate PortAsked(m: PortMapping, p: Port) {
    && m.hostIP == p.hostIP && m.protocol == (if p.protocol == "" then "tcp" else p.protocol)
    && (1 <= p.hostPort <= 65535 ==> m.hostPort == p.hostPort)
    && (1 <= p.containerPort <= 65535 ==> m.containerPort == p.containerPort)
  }

  // A recursive bind of the host path onto the container path, writable unless read-only was
  // asked for, relabelled if that was.
  predicate MountAsked(m: Mount, v: Volume) {
    && m.destination == v.containerPath && m.source == v.hostPath && m.kind == "bind"
    && |m.options| == (if TrimSpace(v.selinux) == "" then 2 else 3)
    && m.options[0] == "rbind" && m.options[1] == (if v.readOnly then "ro" else "rw")
    && (TrimSpace(v.selinux) != "" ==> m.options[2] == TrimSpace(v.selinux))
  }

  ghost predicate SpecAsked(s: Spec, c: Config) {
    && s.name == c.name && s.image == c.image && s.user == c.user && EnvOfConfig(s.env, c.env)
    && ListOf(s.command, c.command) && s.restartPolicy == c.restart && s.readOnly == c.readOnly
    && s.netns == (if TrimSpace(c.networkMode) == "" then None else Some(TrimSpace(c.networkMode)))
    && ListOf(s.capAdd, c.capAdd) && ListOf(s.capDrop, c.capDrop) && s.labels == map[]
    && (if c.ports.Nil? then s.ports == []
        else |s.ports| == |c.ports.items| && forall i | 0 <= i < |s.ports| :: PortAsked(s.ports[i], c.ports.items[i]))
    && (if c.volumes.Nil? then s.mounts == []
        else
          && |s.mounts| == |c.volumes.items|
          && forall i | 0 <= i < |s.mounts| :: MountAsked(s.mounts[i], c.volumes.items[i]))
  }

  lemma PortIsAsked(p: Port)
    ensures PortAsked(PortMappingFromConfig(p), p)
  {
  }

  lemma MountIsAsked(v: Volume)
    ensures MountAsked(MountFromVolume(v), v)
  {
    hide TrimSpace;
  }

  // Every field of the spec is what the config asks for.
  lemma SpecIsAsked(c: Config)
    requires c.Valid()
    ensures SpecAsked(SpecOf(c), c)
  {
    hide TrimSpace, PortMappingFromConfig, MountFromVolume, PortAsked, MountAsked;
    forall i | 0 <= i < |List(c.ports)| ensures PortAsked(PortMappingFromConfig(List(c.ports)[i]), List(c.ports)[i]) {
      PortIsAsked(List(c.ports)[i]);
    }
    forall i | 0 <= i < |List(c.volumes)| ensures MountAsked(MountFromVolume(List(c.volumes)[i]), List(c.volumes)[i]) {
      MountIsAsked(List(c.volumes)[i]);
    }
  }

  // createSpec and applyRuntimeOptions: the spec is filled in field by field.
  method CreateSpec(c: Config) returns (s: Spec)
    requires c.Valid()
    ensures s == SpecOf(c) && SpecAsked(s, c)
  {
    hide PortMappingFromConfig, MountFromVolume, TrimSpace, ToMap, SpecAsked;
    SpecIsAsked(c);
    s := Spec(c.name, c.image, c.user, EnvMap(c.env), List(c.command), [], [], "", map[], None, false, [], []);
    ghost var bare := s;
    var ports := List(c.ports);
    for i := 0 to |ports|
      invariant |s.ports| == i && s.(ports := []) == bare
      invariant forall j | 0 <= j < i :: s.ports[j] == PortMappingFromConfig(ports[j])
    {
      s := s.(ports := s.ports + [PortMappingFromConfig(ports[i])]);
    }
    var volumes := List(c.volumes);
    for i := 0 to |volumes|
      invariant |s.mounts| == i && s.(ports := [], mounts := []) == bare && |s.ports| == |ports|
      invariant forall j | 0 <= j < |ports| :: s.ports[j] == PortMappingFromConfig(ports[j])
      invariant forall j | 0 <= j < i :: s.mounts[j] == MountFromVolume(volumes[j])
    {
      s := s.(mounts := s.mounts + [MountFromVolume(volumes[i])]);
    }
    assert s.ports == SpecOf(c).ports && s.mounts == SpecOf(c).mounts;
    if c.restart != "" {
      s := s.(restartPolicy := c.restart);
    }
    var mode := TrimSpace(c.networkMode);
    if mode != "" {
      s := s.(netns := Some(mode));
    }
    s := s.(readOnly := c.readOnly);
    if List(c.capAdd) != [] {
      s := s.(capAdd := List(c.capAdd));
    }
    if List(c.capDrop) != [] {
      s := s.(capDrop := List(c.capDrop));
    }
  }

  // Equal texts, hence equal hashes, come from equal specs: a container left alone because
  // its hash matches is a container that would be created the same way again.
  lemma SameTextSameSpec(c: Config, d: Config)
    requires c.Valid() && d.Valid() && HashText(c) == HashText(d)
    ensures SpecOf(c) == SpecOf(d)
  {
    TextIsMeaning(c, d);
    hide HashText, PortMappings, Mounts, Netns, ToMap;
  }

  // Ports that passed validation arrive unchanged.
  lemma SpecKeepsPorts(c: Config, i: nat)
    requires c.Valid() && ValidContainer(c) && i < |List(c.ports)|
    ensures SpecOf(c).ports[i].hostPort == List(c.ports)[i].hostPort
    ensures SpecOf(c).ports[i].containerPort == List(c.ports)[i].containerPort
  {
    hide ValidNetworkMode, ValidCapability, ValidRelabel;
    assert ValidPort(List(c.ports)[i]);
    AcceptedPortConverts(List(c.ports)[i].hostPort);
    AcceptedPortConverts(List(c.ports)[i].containerPort);
  }
}
