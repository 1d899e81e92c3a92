/** The ramdump status block: 9 bytes of signature, 128 of status text, 2048 of log, near the end of a partition. */
module RamDump {
  import opened CStrings

  const MRDUMP_OFFSET := 3145728
  const SIG_SIZE := 9
  const STATUS_SIZE := 128
  const LOG_SIZE := 2048
  const BLOCK_SIZE := 2185
  const MODE_SIZE := 32
  const MRDUMP_SIG := "MRDUMP04"

  type Block = b: seq<char> | |b| == BLOCK_SIZE witness seq(BLOCK_SIZE, i => NUL)

  function Sig(b: Block): seq<char> { b[..SIG_SIZE] }
  function StatusText(b: Block): seq<char> { b[SIG_SIZE..SIG_SIZE + STATUS_SIZE] }
  function Log(b: Block): seq<char> { b[SIG_SIZE + STATUS_SIZE..] }

  datatype Status = StatusNone | StatusFailed | StatusOk
  datatype Output = OutputNull | OutputExt4 | OutputVfat

  // ---- Status lines ----

  predicate HasPrefix(p: string, l: seq<char>) { |p| <= |l| && l[..|p|] == p }

  datatype LineKind = OutputLine(output: Output) | BadOutput | ModeLine(mode: seq<char>) | Other

  function Kind(l: seq<char>): LineKind {
    if HasPrefix("OUTPUT:", l) then
      if l[7..] == "EXT4_DATA" then OutputLine(OutputExt4)
      else if l[7..] == "VFAT_INT_STORAGE" then OutputLine(OutputVfat)
      else BadOutput
    else if HasPrefix("MODE:", l) then
      ModeLine(if |l| - 5 < MODE_SIZE then l[5..] else l[5..5 + MODE_SIZE - 1])
    else Other
  }

  datatype Settings = Rejected | Settings(output: Output, mode: seq<char>)

  function Kinds(ls: seq<seq<char>>): (ks: seq<LineKind>)
    ensures |ks| == |ls| && forall i :: 0 <= i < |ls| ==> ks[i] == Kind(ls[i])
  {
    if ls == [] then [] else [Kind(ls[0])] + Kinds(ls[1..])
  }

  function Apply(acc: Settings, k: LineKind): Settings {
    if acc.Rejected? then acc else
    match k
    case OutputLine(o) => acc.(output := o)
    case BadOutput => Rejected
    case ModeLine(m) => acc.(mode := m)
    case Other => acc
  }

  /** The effect of the lines behind an OK, in order. */
  function Fold(acc: Settings, ks: seq<LineKind>): Settings
    decreases |ks|
  {
    if ks == [] then acc else Fold(Apply(acc, ks[0]), ks[1..])
  }

  /** Position `i` holds the last OUTPUT line; likewise for MODE. */
  ghost predicate LastOutput(ks: seq<LineKind>, i: int) {
    0 <= i < |ks| && ks[i].OutputLine? && forall j :: i < j < |ks| ==> !ks[j].OutputLine?
  }

  ghost predicate LastMode(ks: seq<LineKind>, i: int) {
    0 <= i < |ks| && ks[i].ModeLine? && forall j :: i < j < |ks| ==> !ks[j].ModeLine?
  }

  lemma {:induction false} RejectedStays(ks: seq<LineKind>)
    ensures Fold(Rejected, ks).Rejected?
    decreases |ks|
  {
    if ks != [] {
      RejectedStays(ks[1..]);
    }
  }

  /** An unknown OUTPUT anywhere rejects the block, and nothing else does. */
  lemma {:induction false} UnknownOutputRejects(acc: Settings, ks: seq<LineKind>)
    requires acc.Settings?
    ensures Fold(acc, ks).Rejected? <==> BadOutput in ks
    decreases |ks|
  {
    if ks != [] {
      assert BadOutput in ks <==> ks[0] == BadOutput || BadOutput in ks[1..];
      if ks[0] == BadOutput {
        RejectedStays(ks[1..]);
      } else {
        UnknownOutputRejects(Apply(acc, ks[0]), ks[1..]);
      }
    }
  }

  /** Otherwise the last OUTPUT wins, and without one the earlier setting stays. */
  lemma {:induction false} LastOutputWins(acc: Settings, ks: seq<LineKind>)
    requires acc.Settings? && BadOutput !in ks
    ensures Fold(acc, ks).Settings?
    ensures forall i :: LastOutput(ks, i) ==> Fold(acc, ks).output == ks[i].output
    ensures (forall i :: 0 <= i < |ks| ==> !ks[i].OutputLine?) ==> Fold(acc, ks).output == acc.output
    decreases |ks|
  {
    if ks != [] {
      var rest := ks[1..];
      assert ks[0] in ks && forall k :: k in rest ==> k in ks;
      LastOutputWins(Apply(acc, ks[0]), rest);
      forall i | LastOutput(ks, i) ensures Fold(acc, ks).output == ks[i].output {
        if i > 0 {
          assert LastOutput(rest, i - 1);
        }
      }
    }
  }

  /** And so does the last MODE. */
  lemma {:induction false} LastModeWins(acc: Settings, ks: seq<LineKind>)
    requires acc.Settings? && BadOutput !in ks
    ensures Fold(acc, ks).Settings?
    ensures forall i :: LastMode(ks, i) ==> Fold(acc, ks).mode == ks[i].mode
    ensures (forall i :: 0 <= i < |ks| ==> !ks[i].ModeLine?) ==> Fold(acc, ks).mode == acc.mode
    decreases |ks|
  {
    if ks != [] {
      var rest := ks[1..];
      assert ks[0] in ks && forall k :: k in rest ==> k in ks;
      LastModeWins(Apply(acc, ks[0]), rest);
      forall i | LastMode(ks, i) ensures Fold(acc, ks).mode == ks[i].mode {
        if i > 0 {
          assert LastMode(rest, i - 1);
        }
      }
    }
  }

  // ---- Blocks ----

  datatype Report = Unreadable | Report(status: Status, output: Output, mode: seq<char>, line: seq<char>, log: seq<char>)

  /** The text that is tokenised: the status with its last byte forced to NUL. */
  function Terminated(b: Block): (s: seq<char>)
    ensures |s| == STATUS_SIZE && s[STATUS_SIZE - 1] == NUL
  {
    StatusText(b)[STATUS_SIZE - 1 := NUL]
  }

  /** What the tokens of a status text say. */
  function Verdict(ts: seq<seq<char>>, line: seq<char>, log: seq<char>): Report {
    if ts == [] then Unreadable
    else if ts[0] == "OK" then Accepted(Fold(Settings(OutputNull, []), Kinds(ts[1..])), line, log)
    else if ts[0] == "NONE" || ts[0] == "CLEAR" then Report(StatusNone, OutputNull, [], line, log)
    else Report(StatusFailed, OutputNull, [], line, log)
  }

  function Accepted(s: Settings, line: seq<char>, log: seq<char>): Report {
    if s.Rejected? then Unreadable else Report(StatusOk, s.output, s.mode, line, log)
  }

  /** What a status block says. */
  function Read(b: Block): Report {
    if Sig(b) != MRDUMP_SIG + [NUL] then Unreadable
    else Verdict(Tokens(CStr(Terminated(b))), Copied(StatusText(b), STATUS_SIZE), Copied(Log(b), LOG_SIZE))
  }

  // ---- What the text of a block says ----

  predicate NamesOutput(l: seq<char>) { l == "OUTPUT:EXT4_DATA" || l == "OUTPUT:VFAT_INT_STORAGE" }

  predicate UnknownOutput(l: seq<char>) { |l| >= 7 && l[..7] == "OUTPUT:" && !NamesOutput(l) }

  predicate NamesMode(l: seq<char>) { |l| >= 5 && l[..5] == "MODE:" }

  /** The output named on the last line that names one, if there is one. */
  ghost predicate OutputSays(ls: seq<seq<char>>, o: Output) {
    && (o == OutputNull <==> forall i :: 0 <= i < |ls| ==> !NamesOutput(ls[i]))
    && forall i :: 0 <= i < |ls| && NamesOutput(ls[i]) && (forall j :: i < j < |ls| ==> !NamesOutput(ls[j])) ==>
         o == if ls[i] == "OUTPUT:EXT4_DATA" then OutputExt4 else OutputVfat
  }

  /** Likewise the mode, of which 31 characters are kept. */
  ghost predicate ModeSays(ls: seq<seq<char>>, m: seq<char>) {
    && ((forall i :: 0 <= i < |ls| ==> !NamesMode(ls[i])) ==> m == [])
    && forall i :: 0 <= i < |ls| && NamesMode(ls[i]) && (forall j :: i < j < |ls| ==> !NamesMode(ls[j])) ==>
         m == if |ls[i]| <= 36 then ls[i][5..] else ls[i][5..36]
  }

  ghost predicate Misnames(ls: seq<seq<char>>) { exists i :: 0 <= i < |ls| && UnknownOutput(ls[i]) }

  /** What a report must be, given the non-empty lines of the status text: the first says how the dump went, and behind an OK
      the others give output and mode. */
  ghost predicate Says(ls: seq<seq<char>>, r: Report) {
    && (r.Unreadable? <==> ls == [] || (ls[0] == "OK" && Misnames(ls[1..])))
    && (r.Report? ==>
          && (r.status == StatusOk <==> ls[0] == "OK")
          && (r.status == StatusNone <==> ls[0] == "NONE" || ls[0] == "CLEAR")
          && if r.status == StatusOk then OutputSays(ls[1..], r.output) && ModeSays(ls[1..], r.mode)
             else r.output == OutputNull && r.mode == [])
  }

  /** A signed block whose status text is these lines and a NUL. */
  ghost predicate Written(b: Block, ls: seq<seq<char>>) {
    && Sig(b) == "MRDUMP04\0" && Plain(ls) && |Text(ls)| < STATUS_SIZE
    && StatusText(b)[..|Text(ls)|] == Text(ls) && StatusText(b)[|Text(ls)|] == NUL
  }

  lemma {:induction false} KindOf(l: seq<char>)
    ensures Kind(l) == BadOutput <==> UnknownOutput(l)
    ensures Kind(l) == OutputLine(OutputExt4) <==> l == "OUTPUT:EXT4_DATA"
    ensures Kind(l) == OutputLine(OutputVfat) <==> l == "OUTPUT:VFAT_INT_STORAGE"
    ensures Kind(l).OutputLine? <==> NamesOutput(l)
    ensures Kind(l).ModeLine? <==> NamesMode(l)
    ensures Kind(l).ModeLine? ==> Kind(l).mode == if |l| <= 36 then l[5..] else l[5..36]
  {
    if HasPrefix("OUTPUT:", l) {
      assert l == "OUTPUT:" + l[7..] && l[0] == 'O';
      assert "OUTPUT:EXT4_DATA"[7..] == "EXT4_DATA" && "OUTPUT:VFAT_INT_STORAGE"[7..] == "VFAT_INT_STORAGE";
    } else {
      assert "OUTPUT:EXT4_DATA"[..7] == "OUTPUT:" == "OUTPUT:VFAT_INT_STORAGE"[..7];
    }
  }

  lemma {:induction false} RejectedIfMisnamed(ls: seq<seq<char>>, acc: Settings)
    requires acc.Settings?
    ensures Fold(acc, Kinds(ls)).Rejected? <==> Misnames(ls)
  {
    var ks := Kinds(ls);
    UnknownOutputRejects(acc, ks);
    forall i | 0 <= i < |ls| ensures ks[i] == BadOutput <==> UnknownOutput(ls[i]) {
      KindOf(ls[i]);
    }
    if BadOutput in ks {
      var i :| 0 <= i < |ks| && ks[i] == BadOutput;
      assert UnknownOutput(ls[i]);
    }
  }

  lemma {:induction false} SettledOutput(ls: seq<seq<char>>, acc: Settings)
    requires acc.Settings? && acc.output == OutputNull && Fold(acc, Kinds(ls)).Settings?
    ensures OutputSays(ls, Fold(acc, Kinds(ls)).output)
  {
    var ks := Kinds(ls);
    UnknownOutputRejects(acc, ks);
    LastOutputWins(acc, ks);
    forall i | 0 <= i < |ls| ensures ks[i].OutputLine? <==> NamesOutput(ls[i]) {
      KindOf(ls[i]);
    }
    if i :| 0 <= i < |ls| && NamesOutput(ls[i]) {
      var last := LastNamed(ls, i);
      assert LastOutput(ks, last);
      KindOf(ls[last]);
    }
  }

  lemma {:induction false} LastNamed(ls: seq<seq<char>>, i: nat) returns (last: nat)
    requires i < |ls| && NamesOutput(ls[i])
    ensures last < |ls| && NamesOutput(ls[last]) && forall j :: last < j < |ls| ==> !NamesOutput(ls[j])
    decreases |ls| - i
  {
    last := i;
    if j :| i < j < |ls| && NamesOutput(ls[j]) {
      last := LastNamed(ls, j);
    }
  }

  lemma {:induction false} SettledMode(ls: seq<seq<char>>, acc: Settings)
    requires acc.Settings? && acc.mode == [] && Fold(acc, Kinds(ls)).Settings?
    ensures ModeSays(ls, Fold(acc, Kinds(ls)).mode)
  {
    var ks := Kinds(ls);
    UnknownOutputRejects(acc, ks);
    LastModeWins(acc, ks);
    forall i | 0 <= i < |ls| ensures ks[i].ModeLine? <==> NamesMode(ls[i]) {
      KindOf(ls[i]);
    }
    forall i | 0 <= i < |ls| && NamesMode(ls[i]) && (forall j :: i < j < |ls| ==> !NamesMode(ls[j]))
      ensures Fold(acc, ks).mode == if |ls[i]| <= 36 then ls[i][5..] else ls[i][5..36]
    {
      KindOf(ls[i]);
      assert LastMode(ks, i);
    }
  }

  /** A signed block says what its non-empty lines say. */
  lemma {:induction false} VerdictSays(ls: seq<seq<char>>, line: seq<char>, log: seq<char>)
    ensures Says(ls, Verdict(ls, line, log))
  {
    if ls != [] && ls[0] == "OK" {
      var acc := Settings(OutputNull, []);
      RejectedIfMisnamed(ls[1..], acc);
      if Fold(acc, Kinds(ls[1..])).Settings? {
        SettledOutput(ls[1..], acc);
        SettledMode(ls[1..], acc);
      }
    }
  }

  /** Lines written to a block are read back: the report is the one they ask for, with the text and the log as written. */
  lemma {:induction false} WrittenIsRead(b: Block, ls: seq<seq<char>>)
    requires Written(b, ls)
    ensures Says(ls, Read(b))
    ensures Read(b).Report? ==> Read(b).line == Text(ls) && Read(b).log == Copied(Log(b), LOG_SIZE)
  {
    var s, t, n := StatusText(b), Terminated(b), |Text(ls)|;
    TokensOfText(ls);
    assert forall i :: 0 <= i < n ==> s[i] == Text(ls)[i] && t[i] == s[i];
    CStrAt(s, n);
    CStrAt(t, n);
    assert t[..n] == Text(ls);
    VerdictSays(ls, Copied(s, STATUS_SIZE), Copied(Log(b), LOG_SIZE));
  }

  function ClearedText(): (s: seq<char>)
    ensures |s| == STATUS_SIZE && s[..5] == "CLEAR" && forall i :: 5 <= i < STATUS_SIZE ==> s[i] == NUL
  {
    "CLEAR" + seq(STATUS_SIZE - 5, i => NUL)
  }

  function Cleared(b: Block): Block {
    Sig(b) + ClearedText() + Log(b)
  }

  /** Clearing keeps signature and log, twice is once, and a cleared block that was correctly signed reads as "no dump",
      with the log it had. */
  lemma {:induction false} ClearThenRead(b: Block)
    ensures Sig(Cleared(b)) == Sig(b) && Log(Cleared(b)) == Log(b) && StatusText(Cleared(b)) == ClearedText()
    ensures Cleared(Cleared(b)) == Cleared(b)
    ensures Sig(b) == MRDUMP_SIG + [NUL] ==>
      Read(Cleared(b)) == Report(StatusNone, OutputNull, [], "CLEAR", Copied(Log(b), LOG_SIZE))
  {
    assert StatusText(Cleared(b)) == ClearedText() == Terminated(Cleared(b));
    CStrAt(ClearedText(), 5);
    assert ClearedText()[..5] == "CLEAR";
    FirstToken("CLEAR", []);
    assert "CLEAR" + [] == "CLEAR";
  }

  // ---- The partition ----

  /** How the system calls of one access turn out; `written` is the byte count `write` reports. */
  datatype Io = Io(opens: bool, seeks: bool, fullRead: bool, seeksBack: bool, written: int)

  class Partition {
    const dev: array<char>

    constructor (dev: array<char>)
      ensures this.dev == dev
    {
      this.dev := dev;
    }

    /** The block can be reached: the partition is large enough and opening, seeking and reading succeed. */
    predicate Reachable(io: Io) { io.opens && io.seeks && io.fullRead && dev.Length >= MRDUMP_OFFSET }

    function At(): (base: int) { dev.Length - MRDUMP_OFFSET }

    ghost function StatusBlock(): Block
      requires dev.Length >= MRDUMP_OFFSET
      reads dev
    {
      dev[At()..At() + BLOCK_SIZE]
    }

    /** Whatever fails, even if the write is cut short, only the 128 status bytes can change, each to its cleared value. */
    method StatusClear(io: Io) returns (ok: bool)
      requires io.written <= BLOCK_SIZE
      modifies dev
      ensures ok <==> Reachable(io) && io.seeksBack && io.written == BLOCK_SIZE
      ensures ok ==> StatusBlock() == Cleared(old(StatusBlock()))
      ensures !Reachable(io) || !io.seeksBack ==> dev[..] == old(dev[..])
      ensures forall i :: 0 <= i < dev.Length && dev[i] != old(dev[i]) ==>
        At() + SIG_SIZE <= i < At() + SIG_SIZE + STATUS_SIZE && dev[i] == ClearedText()[i - At() - SIG_SIZE]
    {
      if !Reachable(io) {
        return false;
      }
      var base := At();
      var b: Block := dev[base..base + BLOCK_SIZE];
      var block := Overwrite(b);
      if !io.seeksBack {
        return false;
      }
      ghost var cleared := Cleared(b);
      assert forall i :: 0 <= i < BLOCK_SIZE && cleared[i] != b[i] ==>
        SIG_SIZE <= i < SIG_SIZE + STATUS_SIZE && cleared[i] == ClearedText()[i - SIG_SIZE];
      WriteBack(block, cleared, io.written);
      ok := io.written == BLOCK_SIZE;
    }

    method WriteBack(block: array<char>, ghost content: seq<char>, n: int)
      requires dev.Length >= MRDUMP_OFFSET && n <= BLOCK_SIZE && block != dev
      requires block[..] == content && |content| == BLOCK_SIZE
      modifies dev
      ensures forall i :: 0 <= i < dev.Length ==>
        dev[i] == if At() <= i < At() + n then content[i - At()] else old(dev[i])
      ensures n == BLOCK_SIZE ==> StatusBlock() == content
    {
      var base := At();
      forall i | 0 <= i < n { dev[base + i] := block[i]; }
    }

    /** The block in memory, its status zeroed and then set to CLEAR. */
    method Overwrite(b: Block) returns (block: array<char>)
      ensures fresh(block) && block[..] == Cleared(b)
    {
      block := new char[BLOCK_SIZE](i requires 0 <= i < BLOCK_SIZE => b[i]);
      forall i | 0 <= i < STATUS_SIZE { block[SIG_SIZE + i] := NUL; }
      forall i | 0 <= i < 5 { block[SIG_SIZE + i] := "CLEAR"[i]; }
      assert forall i :: 0 <= i < 5 ==> ClearedText()[i] == ClearedText()[..5][i];
    }

    /** The parser agrees with `Read` on every block. */
    method StatusGet(io: Io) returns (r: Report)
      ensures r == if Reachable(io) then Read(StatusBlock()) else Unreadable
      ensures forall ls :: Reachable(io) && Written(StatusBlock(), ls) ==> Says(ls, r)
    {
      forall ls | Reachable(io) && Written(StatusBlock(), ls) ensures Says(ls, Read(StatusBlock())) {
        WrittenIsRead(StatusBlock(), ls);
      }
      if !Reachable(io) {
        return Unreadable;
      }
      var base := At();
      var b: Block := dev[base..base + BLOCK_SIZE];
      if Sig(b) != MRDUMP_SIG + [NUL] {
        return Unreadable;
      }
      var line := Copied(StatusText(b), STATUS_SIZE);
      var status := new char[STATUS_SIZE](i requires 0 <= i < STATUS_SIZE => Terminated(b)[i]);
      assert status[..] == Terminated(b);
      r := Parse(status, line, Copied(Log(b), LOG_SIZE));
    }

    /** The token loop, cutting the status text up in place. */
    method Parse(status: array<char>, line: seq<char>, log: seq<char>) returns (r: Report)
      requires status.Length > 0 && status[status.Length - 1] == NUL
      modifies status
      ensures r == Verdict(Tokens(CStr(old(status[..]))), line, log)
    {
      assert status[0..] == status[..];
      var found, tok, end, next := StrTok(status, 0);
      if !found {
        return Unreadable;
      }
      var first := status[tok..end];
      if first == "OK" {
        var s := Settle(status, next);
        return Accepted(s, line, log);
      } else if first == "NONE" || first == "CLEAR" {
        return Report(StatusNone, OutputNull, [], line, log);
      }
      return Report(StatusFailed, OutputNull, [], line, log);
    }

    method Settle(status: array<char>, start: nat) returns (acc: Settings)
      requires start < status.Length && status[status.Length - 1] == NUL
      modifies status
      ensures acc == Fold(Settings(OutputNull, []), Kinds(Tokens(CStr(old(status[start..])))))
    {
      acc := Settings(OutputNull, []);
      ghost var goal := Fold(acc, Kinds(Tokens(CStr(status[start..]))));
      var next := start;
      while true
        invariant next < status.Length && status[status.Length - 1] == NUL && acc.Settings?
        invariant Fold(acc, Kinds(Tokens(CStr(status[next..])))) == goal
        decreases status.Length - next
      {
        ghost var ts := Tokens(CStr(status[next..]));
        var found, tok, end, after := StrTok(status, next);
        if !found {
          return;
        }
        var k := Kind(status[tok..end]);
        assert ts[0] == status[tok..end] && ts[1..] == Tokens(CStr(status[after..]));
        assert Kinds(ts) == [k] + Kinds(ts[1..]);
        if k == BadOutput {
          RejectedStays(Kinds(ts[1..]));
          return Rejected;
        }
        acc := Apply(acc, k);
        next := after;
      }
    }
  }
}
