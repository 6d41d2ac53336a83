/** The journal and its seal, file operation by file operation.  Any step may fail or be the last
    before a crash: on disk the two look the same, and every such point is a `*` below.

    The cipher is ideal: a token opens under the key that made it and under no other, and the
    kernel's pool never hands out the same key twice. */
module Vault {
  import opened Numerals
  import opened Options
  import opened Seqs

  datatype Entry = Entry(ts: real, text: string)

  datatype LogLine = LogLine(ts: real, event: string, detail: string)

  /** The files of the vault directory, and each one's temporary. */
  datatype Name = KeyBin | TokenBin | VaultEnc | MarkerTxt | StatusJson | AccessLog | Tmp(of: Name)

  datatype Content =
    | Key(id: nat)
    | Secret(bytes: seq<bv8>)
    | Token(key: nat, entries: seq<Entry>, length: nat)
    | Nuls(length: nat)
    | Torn                       // opened and truncated, or half written
    | Marker(reason: string)
    | Status(sealed: bool, count: nat, accessCount: nat, hashed: Option<Content>, marker: Option<string>)
    | Log(lines: seq<LogLine>)

  type Files = map<Name, Content>

  /** What the pool hands out at a time. */
  type Raw32 = s: seq<bv8> | |s| == 32 witness seq(32, _ => 0)

  function Get(f: Files, n: Name): Option<Content> { if n in f then Some(f[n]) else None }

  function KeyOf(f: Files): Option<nat> {
    if KeyBin in f && f[KeyBin].Key? then Some(f[KeyBin].id) else None
  }

  function LogOf(f: Files): seq<LogLine> {
    if AccessLog in f && f[AccessLog].Log? then f[AccessLog].lines else []
  }

  /** None is a vault that is gone: no journal, no key, or a journal this key did not make. */
  function Load(f: Files): Option<seq<Entry>> {
    if VaultEnc in f && f[VaultEnc].Token? && KeyOf(f) == Some(f[VaultEnc].key)
    then Some(f[VaultEnc].entries) else None
  }

  function SizeOf(c: Content): nat {
    match c
    case Token(_, _, n) => n
    case Nuls(n) => n
    case _ => 0
  }

  /** The same but for the named files and the temporaries, which nothing ever reads. */
  predicate SameExcept(f: Files, g: Files, changed: set<Name>) {
    && (KeyBin in changed || Get(f, KeyBin) == Get(g, KeyBin))
    && (TokenBin in changed || Get(f, TokenBin) == Get(g, TokenBin))
    && (VaultEnc in changed || Get(f, VaultEnc) == Get(g, VaultEnc))
    && (MarkerTxt in changed || Get(f, MarkerTxt) == Get(g, MarkerTxt))
    && (StatusJson in changed || Get(f, StatusJson) == Get(g, StatusJson))
    && (AccessLog in changed || Get(f, AccessLog) == Get(g, AccessLog))
  }

  datatype Disk = Disk(files: Files, drawn: nat) // drawn: keys handed out so far

  // ----- what each operation may leave behind ---------------------------------------------

  /** `ensure`: each missing file is made or not, key before token before journal; what exists is
      left alone. */
  ghost predicate EnsureLeaves(d: Disk, ok: bool, d': Disk) {
    var f, g := d.files, d'.files;
    && SameExcept(f, g, {KeyBin, TokenBin, VaultEnc, StatusJson}) && d.drawn <= d'.drawn
    && (Get(g, KeyBin) == Get(f, KeyBin)
        || (KeyBin !in f && KeyOf(g).Some? && d.drawn <= KeyOf(g).value < d'.drawn))
    && (Get(g, TokenBin) == Get(f, TokenBin)
        || (TokenBin !in f && KeyBin in g && TokenBin in g && g[TokenBin].Secret? && |g[TokenBin].bytes| == 32))
    && (Get(g, VaultEnc) == Get(f, VaultEnc)
        || (VaultEnc !in f && TokenBin in g && VaultEnc in g && g[VaultEnc].Token?
            && KeyOf(g) == Some(g[VaultEnc].key) && g[VaultEnc].entries == []))
    && (ok ==> KeyBin in g && TokenBin in g && VaultEnc in g && StatusIsCurrent(g))
  }

  /** `append`: the journal is the old one, or (landed) the old one and one more entry. */
  ghost predicate AppendLeaves(d: Disk, now: real, text: string, landed: bool, r: Option<nat>, d': Disk) {
    var f, g := d.files, d'.files;
    && SameExcept(f, g, {VaultEnc, StatusJson, AccessLog}) && d'.drawn == d.drawn
    && (landed ==> Load(f).Some? && Load(g) == Some(Load(f).value + [Entry(now, text)]))
    && (!landed ==> r.None? && Get(g, VaultEnc) == Get(f, VaultEnc) && LogOf(g) == LogOf(f))
    && (LogOf(g) == LogOf(f) || (landed && LogOf(g) == LogOf(f) + [LogLine(now, "APPEND", ShowNat(|Load(g).value|))]))
    && (r.Some? ==> landed && r.value == |Load(g).value| && |LogOf(g)| == |LogOf(f)| + 1 && StatusIsCurrent(g))
  }

  /** `read`: nothing but a log line, which is written first, and the status. */
  ghost predicate ReadLeaves(d: Disk, now: real, r: Option<(seq<Entry>, seq<LogLine>)>, d': Disk) {
    var f, g := d.files, d'.files;
    && SameExcept(f, g, {StatusJson, AccessLog}) && d'.drawn == d.drawn
    && (LogOf(g) == LogOf(f) || LogOf(g) == LogOf(f) + [ReadLine(f, now)])
    && (r.Some? ==>
        && LogOf(g) == LogOf(f) + [ReadLine(f, now)]
        && Load(f) == Some(r.value.0) && r.value.1 == Last30(LogOf(g)) && StatusIsCurrent(g))
  }

  /** `wipe`: keys first, journal next, marker after; each stage only once the one before is done. */
  ghost predicate WipeLeaves(d: Disk, now: real, reason: string, ok: bool, d': Disk) {
    var f, g := d.files, d'.files;
    var size := if VaultEnc in f then SizeOf(f[VaultEnc]) else 1;
    && d'.drawn == d.drawn
    && (Get(g, KeyBin) == Get(f, KeyBin) || KeyBin !in g)
    && (Get(g, TokenBin) == Get(f, TokenBin) || (KeyBin !in g && TokenBin !in g))
    && (Get(g, VaultEnc) == Get(f, VaultEnc)
        || (KeyBin !in g && TokenBin !in g && Get(g, VaultEnc) == Some(Nuls(size))))
    && (Get(g, MarkerTxt) == Get(f, MarkerTxt)
        || (KeyBin !in g && TokenBin !in g && Get(g, VaultEnc) == Some(Nuls(size))
            && Get(g, MarkerTxt) == Some(Marker(reason))))
    && (LogOf(g) == LogOf(f)
        || (KeyBin !in g && TokenBin !in g && Get(g, VaultEnc) == Some(Nuls(size))
            && Get(g, MarkerTxt) == Some(Marker(reason)) && LogOf(g) == LogOf(f) + [LogLine(now, "WIPED", reason)]))
    && (ok ==> KeyBin !in g && TokenBin !in g && Get(g, VaultEnc) == Some(Nuls(size))
               && Get(g, MarkerTxt) == Some(Marker(reason))
               && LogOf(g) == LogOf(f) + [LogLine(now, "WIPED", reason)] && StatusIsCurrent(g))
  }

  predicate StatusIsCurrent(f: Files) {
    Get(f, StatusJson) == Some(StatusOf(f))
  }

  /** `hashed` stands for the hash of the journal file's bytes. */
  function StatusOf(f: Files): Content {
    Status(Load(f).Some?, if Load(f).Some? then |Load(f).value| else 0, |LogOf(f)|,
           if VaultEnc in f && SizeOf(f[VaultEnc]) > 0 then Some(f[VaultEnc]) else None,
           if MarkerTxt in f && f[MarkerTxt].Marker? then Some(f[MarkerTxt].reason) else None)
  }

  function ReadLine(f: Files, now: real): LogLine {
    LogLine(now, "READ", ShowNat(if Load(f).Some? then |Load(f).value| else 0))
  }

  function Last30(lines: seq<LogLine>): seq<LogLine> {
    if |lines| <= 30 then lines else lines[|lines| - 30..]
  }

  // ----- comparing and trimming bytes -----------------------------------------------------

  lemma DiffStep(diff: bv8, x: bv8, y: bv8)
    ensures diff | (x ^ y) == 0 <==> diff == 0 && x == y
  {
  }

  /** Every byte is looked at, and the answer is still plain equality. */
  method ConstantTimeEq(a: seq<bv8>, b: seq<bv8>) returns (same: bool)
    ensures same <==> a == b
  {
    if |a| != |b| {
      return false;
    }
    var diff: bv8 := 0;
    for i := 0 to |a|
      invariant diff == 0 <==> a[..i] == b[..i]
    {
      DiffStep(diff, a[i], b[i]);
      assert a[..i + 1] == a[..i] + [a[i]] && b[..i + 1] == b[..i] + [b[i]];
      diff := diff | (a[i] ^ b[i]);
    }
    assert a[..|a|] == a && b[..|b|] == b;
    return diff == 0;
  }

  const PAD: bv8 := 61 // '='

  /** The bytes before the trailing padding, and nothing more is cut. */
  method StripPad(b: seq<bv8>) returns (s: seq<bv8>)
    ensures s <= b && (forall i :: |s| <= i < |b| ==> b[i] == 61)
    ensures s != [] ==> s[|s| - 1] != 61
  {
    var end := |b|;
    while end > 0 && b[end - 1] == PAD
      invariant 0 <= end <= |b|
      invariant forall i :: end <= i < |b| ==> b[i] == PAD
    {
      end := end - 1;
    }
    return b[..end];
  }

  // ----- the vault -------------------------------------------------------------------------

  class Vault {
    const mac: seq<bv8> -> seq<bv8> // hex(HMAC-SHA256(raw, "fragment"))
    var files: Files
    var drawn: nat

    ghost function Now(): Disk
      reads this
    {
      Disk(files, drawn)
    }

    constructor (mac: seq<bv8> -> seq<bv8>)
      ensures files == map[] && drawn == 0
    {
      this.mac := mac;
      files := map[];
      drawn := 0;
    }

    /** tmp file, write, sync, rename: the old bytes, or all of the new. */
    method WriteMode(name: Name, content: Content) returns (ok: bool)
      requires !name.Tmp?
      modifies this`files
      ensures ok ==> Get(files, name) == Some(content)
      ensures !ok ==> Get(files, name) == Get(old(files), name)
      ensures SameExcept(old(files), files, {name})
    {
      var refused: bool := *;
      if refused { return false; }
      files := files[Tmp(name) := Torn];
      var stopped: bool := *;
      if stopped { return false; }
      files := files[Tmp(name) := content];
      var lost: bool := *;
      if lost { return false; }
      files := (files - {Tmp(name)})[name := content];
      return true;
    }

    /** One line at the end of the log, or nothing. */
    method LogAccess(now: real, event: string, detail: string) returns (ok: bool)
      modifies this`files
      ensures SameExcept(old(files), files, {AccessLog})
      ensures LogOf(files) == if ok then LogOf(old(files)) + [LogLine(now, event, detail)] else LogOf(old(files))
    {
      var refused: bool := *;
      if refused { return false; }
      files := files[AccessLog := Log(LogOf(files) + [LogLine(now, event, detail)])];
      return true;
    }

    method WriteStatus() returns (ok: bool)
      modifies this`files
      ensures SameExcept(old(files), files, {StatusJson})
      ensures ok ==> StatusIsCurrent(files)
    {
      ok := WriteMode(StatusJson, StatusOf(files));
    }

    /** Unlink; a file that is not there is no error. */
    method Unlink(name: Name) returns (ok: bool)
      requires !name.Tmp?
      modifies this`files
      ensures SameExcept(old(files), files, {name})
      ensures if ok then name !in files else Get(files, name) == Get(old(files), name)
    {
      var refused: bool := *;
      if refused { return false; }
      files := files - {name};
      return true;
    }

    /** `raw` is what the pool would hand out for a token. */
    method Ensure(raw: Raw32) returns (ok: bool)
      modifies this
      ensures EnsureLeaves(old(Now()), ok, Now())
    {
      var refused: bool := *;
      if refused { return false; }
      if KeyBin !in files {
        var id := drawn;
        drawn := drawn + 1;
        ok := WriteMode(KeyBin, Key(id));
        if !ok { return; }
      }
      if TokenBin !in files {
        ok := WriteMode(TokenBin, Secret(raw));
        if !ok { return; }
      }
      if VaultEnc !in files {
        var key := KeyOf(files);
        if key.None? { return false; }
        var length: nat := *;
        ok := WriteMode(VaultEnc, Token(key.value, [], length));
        if !ok { return; }
      }
      ok := WriteStatus();
    }

    method Append(now: real, text: string) returns (r: Option<nat>, ghost landed: bool)
      modifies this`files
      ensures AppendLeaves(old(Now()), now, text, landed, r, Now())
    {
      landed := false;
      var loaded := Load(files);
      if loaded.None? { return None, false; }
      var entries := loaded.value + [Entry(now, text)];
      var length: nat := *;
      var ok := WriteMode(VaultEnc, Token(files[VaultEnc].key, entries, length));
      if !ok { return None, false; }
      landed := true;
      assert Load(files) == Some(entries);
      ok := LogAccess(now, "APPEND", ShowNat(|entries|));
      if !ok { return None, true; }
      ok := WriteStatus();
      if !ok { return None, true; }
      return Some(|entries|), true;
    }

    method Read(now: real) returns (r: Option<(seq<Entry>, seq<LogLine>)>)
      modifies this`files
      ensures ReadLeaves(old(Now()), now, r, Now())
    {
      var loaded := Load(files);
      var ok := LogAccess(now, "READ", ShowNat(if loaded.Some? then |loaded.value| else 0));
      if !ok { return None; }
      loaded := Load(files);
      if loaded.None? { return None; }
      var lines := Last30(LogOf(files));
      ok := WriteStatus();
      if !ok { return None; }
      return Some((loaded.value, lines));
    }

    method Wipe(now: real, reason: string) returns (ok: bool)
      modifies this`files
      ensures WipeLeaves(old(Now()), now, reason, ok, Now())
    {
      var size := if VaultEnc in files then SizeOf(files[VaultEnc]) else 1;
      ok := Unlink(KeyBin);
      if !ok { return; }
      ok := Unlink(TokenBin);
      if !ok { return; }
      ok := WriteMode(VaultEnc, Nuls(size));
      if !ok { return; }
      ok := WriteMode(MarkerTxt, Marker(reason));
      if !ok { return; }
      ok := LogAccess(now, "WIPED", reason);
      if !ok { return; }
      ok := WriteStatus();
    }

    /** What a caller must present; nothing, when there is no token to derive it from. */
    ghost function Seal(): seq<bv8>
      reads this
    {
      if TokenBin in files && files[TokenBin].Secret? && |files[TokenBin].bytes| == 32
      then mac(files[TokenBin].bytes) else []
    }

    method CheckToken(presented: seq<bv8>) returns (ok: bool)
      ensures ok <==> presented != [] && presented == Seal()
    {
      if presented == [] {
        return false;
      }
      var seal: seq<bv8> :=
        if TokenBin in files && files[TokenBin].Secret? && |files[TokenBin].bytes| == 32
        then mac(files[TokenBin].bytes) else [];
      ok := ConstantTimeEq(presented, seal);
    }

    /** The door's append: without the entry, nothing; without the seal, the wipe; and with it,
        never one. */
    method DoorAppend(token: Option<seq<bv8>>, text: Option<string>, now: real) returns (r: Option<nat>, ghost landed: bool)
      modifies this`files
      ensures text.None? ==> Now() == old(Now()) && r.None?
      ensures text.Some? && token.GetOr([]) != [] && token.GetOr([]) == old(Seal()) ==>
                AppendLeaves(old(Now()), now, text.value, landed, r, Now())
      ensures text.Some? && !(token.GetOr([]) != [] && token.GetOr([]) == old(Seal())) ==>
                r.None? && exists ok :: WipeLeaves(old(Now()), now, "append without token", ok, Now())
    {
      r, landed := None, false;
      if text.None? {
        return;
      }
      var granted := CheckToken(token.GetOr([]));
      if !granted {
        var ok := Wipe(now, "append without token");
        return;
      }
      r, landed := Append(now, text.value);
    }

    method DoorRead(token: Option<seq<bv8>>, now: real) returns (r: Option<(seq<Entry>, seq<LogLine>)>)
      modifies this`files
      ensures token.GetOr([]) != [] && token.GetOr([]) == old(Seal()) ==>
                ReadLeaves(old(Now()), now, r, Now())
      ensures !(token.GetOr([]) != [] && token.GetOr([]) == old(Seal())) ==>
                r.None? && exists ok :: WipeLeaves(old(Now()), now, "read without token", ok, Now())
    {
      r := None;
      var granted := CheckToken(token.GetOr([]));
      if !granted {
        var ok := Wipe(now, "read without token");
        return;
      }
      r := Read(now);
    }
  }

  // ----- runs -------------------------------------------------------------------------------

  /** One operation, and how it ended. */
  datatype Op =
    | EnsureOp(ok: bool)
    | AppendOp(now: real, text: string, landed: bool, count: Option<nat>)
    | ReadOp(now: real, words: Option<(seq<Entry>, seq<LogLine>)>)
    | WipeOp(now: real, reason: string, ok: bool)

  ghost predicate Leaves(d: Disk, op: Op, d': Disk) {
    match op
    case EnsureOp(ok) => EnsureLeaves(d, ok, d')
    case AppendOp(now, text, landed, r) => AppendLeaves(d, now, text, landed, r, d')
    case ReadOp(now, r) => ReadLeaves(d, now, r, d')
    case WipeOp(now, reason, ok) => WipeLeaves(d, now, reason, ok, d')
  }

  /** disks[i] is what ops[i] found, disks[i + 1] what it left. */
  ghost predicate Run(ops: seq<Op>, disks: seq<Disk>) {
    |disks| == |ops| + 1 && forall i :: 0 <= i < |ops| ==> Leaves(disks[i], ops[i], disks[i + 1])
  }

  /** Every key in use came from the pool. */
  predicate Drawn(d: Disk) {
    && (KeyBin in d.files ==> d.files[KeyBin].Key? && d.files[KeyBin].id < d.drawn)
    && (VaultEnc in d.files && d.files[VaultEnc].Token? ==> d.files[VaultEnc].key < d.drawn)
  }

  lemma LeavesDrawn(d: Disk, op: Op, d': Disk)
    requires Drawn(d) && Leaves(d, op, d')
    ensures Drawn(d')
  {
  }

  /** A journal that is there but that the present key cannot open. */
  predicate Dead(d: Disk) {
    && Drawn(d) && VaultEnc in d.files && Load(d.files).None?
  }

  /** No operation brings it back, wherever it stops: a new key is never the old one. */
  lemma DeadStaysDead(d: Disk, op: Op, d': Disk)
    requires Dead(d) && Leaves(d, op, d')
    ensures Dead(d')
  {
    LeavesDrawn(d, op, d');
  }

  lemma {:induction false} DeadForEver(ops: seq<Op>, disks: seq<Disk>)
    requires Run(ops, disks) && Dead(disks[0])
    ensures forall i :: 0 <= i < |disks| ==> Dead(disks[i])
  {
    if ops != [] {
      var n := |ops| - 1;
      RunBefore(ops, disks);
      DeadForEver(ops[..n], disks[..n + 1]);
      DeadStaysDead(disks[n], ops[n], disks[n + 1]);
      forall i | 0 <= i < |disks| ensures Dead(disks[i]) {
        if i <= n {
          assert disks[..n + 1][i] == disks[i];
        }
      }
    }
  }

  /** From the moment key.bin is gone, no later run of operations, each whole or cut short
      anywhere, makes `load` return a list: provided there was a journal file to lose. */
  lemma WipedIsWiped(ops: seq<Op>, disks: seq<Disk>)
    requires Run(ops, disks) && Drawn(disks[0])
    requires KeyBin !in disks[0].files && VaultEnc in disks[0].files
    ensures forall i :: 0 <= i < |disks| ==> Load(disks[i].files).None?
  {
    DeadForEver(ops, disks);
  }

  /** And a wipe that got as far as the unlink leaves exactly that, finished or not. */
  lemma AfterTheUnlink(d: Disk, now: real, reason: string, ok: bool, d': Disk)
    requires Drawn(d) && WipeLeaves(d, now, reason, ok, d') && KeyBin !in d'.files
    ensures VaultEnc in d.files ==> Dead(d')
    ensures ok ==> Dead(d')
  {
  }

  ghost predicate NeverLoads(d: Disk) {
    forall ops: seq<Op>, disks: seq<Disk> :: Run(ops, disks) && disks[0] == d ==>
      Load(disks[|disks| - 1].files).None?
  }

  /** Without a key, gone for good means exactly that the journal file is there. */
  lemma GoneForGoodExactlyWhen(d: Disk)
    requires Drawn(d) && KeyBin !in d.files
    ensures NeverLoads(d) <==> VaultEnc in d.files
  {
    if VaultEnc in d.files {
      forall ops: seq<Op>, disks: seq<Disk> | Run(ops, disks) && disks[0] == d
        ensures Load(disks[|disks| - 1].files).None?
      {
        WipedIsWiped(ops, disks);
      }
    } else {
      var secret := if TokenBin in d.files then d.files[TokenBin] else Secret(seq(32, _ => 0));
      var f := d.files[KeyBin := Key(d.drawn)][TokenBin := secret][VaultEnc := Token(d.drawn, [], 1)];
      var e := Disk(f[StatusJson := StatusOf(f)], d.drawn + 1);
      assert Load(e.files) == Some([]) && EnsureLeaves(d, true, e);
      assert Leaves(d, EnsureOp(true), e);
      assert Run([EnsureOp(true)], [d, e]);
    }
  }

  /** A disk with neither key nor journal is a new vault to the next `ensure`: if that gets
      through, it comes up with an empty list. */
  lemma NextEnsureStartsEmpty(d: Disk, d': Disk)
    ensures KeyBin !in d.files && VaultEnc !in d.files && EnsureLeaves(d, true, d') ==>
              Load(d'.files) == Some([]) && KeyOf(d'.files).Some? && KeyOf(d'.files).value >= d.drawn
  {
  }

  // ----- before any wipe ---------------------------------------------------------------------

  function Landed(ops: seq<Op>): seq<Entry> {
    if ops == [] then [] else
    Landed(ops[..|ops| - 1]) + LandedBy(ops[|ops| - 1])
  }

  function LandedBy(op: Op): seq<Entry> {
    if op.AppendOp? && op.landed then [Entry(op.now, op.text)] else []
  }

  /** While nothing wipes, the journal is the list of the appends that landed, in order: every
      append that was answered, and each one cut short either wholly there or not at all. */
  lemma {:induction false} JournalIsTheAppends(ops: seq<Op>, disks: seq<Disk>)
    requires Run(ops, disks) && Load(disks[0].files).Some?
    requires forall op :: op in ops ==> !op.WipeOp?
    ensures Load(disks[|ops|].files) == Some(Load(disks[0].files).value + Landed(ops))
    ensures forall op :: op in ops && op.AppendOp? && op.count.Some? ==> op.landed
  {
    JournalGrows(ops, disks);
    forall op | op in ops && op.AppendOp? && op.count.Some? ensures op.landed {
      var i :| 0 <= i < |ops| && ops[i] == op;
      assert Leaves(disks[i], ops[i], disks[i + 1]);
    }
  }

  lemma RunBefore(ops: seq<Op>, disks: seq<Disk>)
    requires Run(ops, disks) && ops != []
    ensures var n := |ops| - 1;
            && Run(ops[..n], disks[..n + 1]) && Leaves(disks[n], ops[n], disks[n + 1])
            && disks[..n + 1][n] == disks[n] && disks[..n + 1][0] == disks[0]
  {
  }

  lemma {:induction false} JournalGrows(ops: seq<Op>, disks: seq<Disk>)
    requires Run(ops, disks) && Load(disks[0].files).Some?
    requires forall op :: op in ops ==> !op.WipeOp?
    ensures Load(disks[|ops|].files) == Some(Load(disks[0].files).value + Landed(ops))
  {
    if ops == [] {
      assert Load(disks[0].files).value + [] == Load(disks[0].files).value;
    } else {
      var n := |ops| - 1;
      RunBefore(ops, disks);
      assert forall op :: op in ops[..n] ==> op in ops;
      JournalGrows(ops[..n], disks[..n + 1]);
      OneStep(disks[n], ops[n], disks[n + 1]);
      LandedGrows(ops);
      Assoc(Load(disks[0].files).value, Landed(ops[..n]), LandedBy(ops[n]));
    }
  }

  lemma LandedGrows(ops: seq<Op>)
    requires ops != []
    ensures Landed(ops) == Landed(ops[..|ops| - 1]) + LandedBy(ops[|ops| - 1])
  {
  }

  lemma OneStep(d: Disk, op: Op, d': Disk)
    requires Leaves(d, op, d') && !op.WipeOp? && Load(d.files).Some?
    ensures Load(d'.files)
            == Some(Load(d.files).value + LandedBy(op))
    ensures op.AppendOp? && op.count.Some? ==> op.landed
  {
    assert Load(d.files).value + [] == Load(d.files).value;
  }

  /** The line an operation leaves when it gets through. */
  function LineOf(op: Op): Option<LogLine> {
    match op
    case EnsureOp(_) => None
    case AppendOp(now, _, _, count) =>
      if count.None? then None else Some(LogLine(now, "APPEND", ShowNat(count.value)))
    case ReadOp(now, words) =>
      if words.None? then None else Some(LogLine(now, "READ", ShowNat(|words.value.0|)))
    case WipeOp(now, reason, ok) => if ok then Some(LogLine(now, "WIPED", reason)) else None
  }

  /** The access log is never shortened or rewritten, and every append, read and wipe that was
      answered left its own line right behind what was there. */
  lemma {:induction false} LogOnlyGrows(ops: seq<Op>, disks: seq<Disk>)
    requires Run(ops, disks)
    ensures LogOf(disks[0].files) <= LogOf(disks[|ops|].files)
    ensures forall i :: 0 <= i < |ops| && LineOf(ops[i]).Some? ==>
              LogOf(disks[i].files) + [LineOf(ops[i]).value] <= LogOf(disks[|ops|].files)
  {
    if ops != [] {
      var n := |ops| - 1;
      RunBefore(ops, disks);
      LogOnlyGrows(ops[..n], disks[..n + 1]);
      LogStep(disks[n], ops[n], disks[n + 1]);
      forall i | 0 <= i < |ops| && LineOf(ops[i]).Some?
        ensures LogOf(disks[i].files) + [LineOf(ops[i]).value] <= LogOf(disks[|ops|].files)
      {
        if i < n {
          assert ops[..n][i] == ops[i] && disks[..n + 1][i] == disks[i];
        }
      }
    }
  }

  lemma LogStep(d: Disk, op: Op, d': Disk)
    requires Leaves(d, op, d')
    ensures LogOf(d.files) <= LogOf(d'.files)
    ensures LineOf(op).Some? ==> LogOf(d'.files) == LogOf(d.files) + [LineOf(op).value]
  {
  }

  // ----- what is answered and shown -----------------------------------------------------------

  /** The lines that ride out with the words are the log's last thirty, this read's own the last of
      them, and all of them when there are fewer. */
  lemma ReadAnswersTheLastThirty(d: Disk, now: real, entries: seq<Entry>, lines: seq<LogLine>, d': Disk)
    requires ReadLeaves(d, now, Some((entries, lines)), d')
    ensures |lines| == (if |LogOf(d.files)| + 1 < 30 then |LogOf(d.files)| + 1 else 30)
    ensures exists before :: LogOf(d'.files) == before + lines
    ensures lines[|lines| - 1] == LogLine(now, "READ", ShowNat(|entries|))
  {
    var all := LogOf(d'.files);
    assert all == all[..|all| - |lines|] + lines;
  }

  /** Was the operation answered as done? */
  predicate Through(op: Op) {
    match op
    case EnsureOp(ok) => ok
    case AppendOp(_, _, _, count) => count.Some?
    case ReadOp(_, words) => words.Some?
    case WipeOp(_, _, ok) => ok
  }

  /** After any operation that got through the public status is there and says the truth: sealed
      exactly when the journal opens, its length, and the lines of the log. */
  lemma StatusTellsTheTruth(d: Disk, op: Op, d': Disk)
    requires Leaves(d, op, d') && Through(op)
    ensures var f := d'.files;
            && StatusJson in f && f[StatusJson].Status? && f[StatusJson].accessCount == |LogOf(f)|
            && (f[StatusJson].sealed <==> Load(f).Some?)
            && (Load(f).Some? ==> f[StatusJson].count == |Load(f).value|)
            && (Load(f).None? ==> f[StatusJson].count == 0)
            && (f[StatusJson].hashed.Some? ==> VaultEnc in f && f[StatusJson].hashed == Some(f[VaultEnc]))
            && (f[StatusJson].marker.Some? <==> MarkerTxt in f && f[MarkerTxt].Marker?)
    ensures op.AppendOp? ==> d'.files[StatusJson].sealed && Some(d'.files[StatusJson].count) == op.count
    ensures op.ReadOp? ==> d'.files[StatusJson].sealed && d'.files[StatusJson].count == |op.words.value.0|
    ensures op.WipeOp? ==> !d'.files[StatusJson].sealed && d'.files[StatusJson].count == 0
                           && d'.files[StatusJson].marker == Some(op.reason)
  {
    var f := d'.files;
    assert StatusIsCurrent(f);
  }

  /** A wipe that stopped before the key went took nothing: the vault opens to the same list under
      the same seal.  And the marker is never written over a journal that still stands. */
  lemma AWipeTakesTheKeyFirst(d: Disk, now: real, reason: string, ok: bool, d': Disk)
    requires WipeLeaves(d, now, reason, ok, d')
    ensures KeyBin in d'.files ==>
              && Load(d'.files) == Load(d.files) && Get(d'.files, TokenBin) == Get(d.files, TokenBin)
              && Get(d'.files, MarkerTxt) == Get(d.files, MarkerTxt)
    ensures Load(d'.files).Some? ==> Load(d'.files) == Load(d.files)
    ensures Get(d'.files, MarkerTxt) != Get(d.files, MarkerTxt) ==>
              Load(d'.files).None? && VaultEnc in d'.files && d'.files[VaultEnc].Nuls?
    ensures ok && VaultEnc in d.files && d.files[VaultEnc].Token? ==>
              d'.files[VaultEnc] == Nuls(d.files[VaultEnc].length)
  {
  }
}
