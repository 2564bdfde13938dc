/**
 The rebuild-assist protocol: log pages written to a drive that may answer anything, and
 the two host flags that say whether the feature is in use.
 */
module RebuildAssist {
  import opened LittleEndian
  import opened Options
  import opened Paging

  const LOG_PAGE_SIZE := 512
  const FIELD_LENGTH := 128

  // ---------- the exchange with the drive ----------

  datatype Request = Write(page: seq<Byte>) | Read | Reset

  /** The transport's return code, the drive's status byte, and the page a read brings back. */
  datatype Reply = Reply(ret: int, status: Byte, page: seq<Byte>)

  datatype Exchange = Exchange(request: Request, reply: Reply)

  /** Bit 0 of the status byte is the drive's error bit. */
  predicate Clean(reply: Reply) {
    reply.ret == 0 && reply.status % 2 == 0
  }

  /** The drive took this page. */
  predicate Took(e: Exchange) {
    e.request.Write? && Clean(e.reply)
  }

  predicate ZeroPage(page: seq<Byte>) {
    |page| == LOG_PAGE_SIZE && forall i :: 0 <= i < LOG_PAGE_SIZE ==> page[i] == 0
  }

  predicate EnablePage(page: seq<Byte>) {
    |page| == LOG_PAGE_SIZE && page[0] == 1 && forall i :: 1 <= i < LOG_PAGE_SIZE ==> page[i] == 0
  }

  /** A drive may answer the k-th request in any way, with a page of the page's size. */
  ghost predicate Drive(device: nat -> Reply) {
    forall k :: |device(k).page| == LOG_PAGE_SIZE
  }

  /** The last page the drive took has its enable byte set. */
  function LeftOn(log: seq<Exchange>): bool {
    if log == [] then false
    else
      var last := log[|log| - 1];
      if Took(last) && |last.request.page| > 0 then last.request.page[0] != 0 else LeftOn(log[..|log| - 1])
  }

  lemma LeftOnSnoc(log: seq<Exchange>, e: Exchange)
    ensures LeftOn(log + [e]) == if Took(e) && |e.request.page| > 0 then e.request.page[0] != 0 else LeftOn(log)
  {
    assert (log + [e])[..|log|] == log;
  }

  /** Exchange k of a run that began with the drive's from-th answer: what was sent, and that answer. */
  ghost predicate Sent(device: nat -> Reply, from: nat, sent: seq<Exchange>, k: nat, request: Request) {
    k < |sent| && sent[k] == Exchange(request, device(from + k))
  }

  ghost predicate Wrote(device: nat -> Reply, from: nat, sent: seq<Exchange>, k: nat) {
    k < |sent| && sent[k].request.Write? && sent[k].reply == device(from + k)
  }

  /**
   What turning the feature off sends: a zero page, a reset if that was not taken, a zero
   page again, and a read if the second one was taken, which is what decides.
   */
  ghost predicate DisableRun(device: nat -> Reply, from: nat, sent: seq<Exchange>, taken: bool) {
    exists second: nat :: DisableRunAt(device, from, sent, second, taken)
  }

  ghost predicate DisableRunAt(device: nat -> Reply, from: nat, sent: seq<Exchange>, second: nat, taken: bool) {
    && Wrote(device, from, sent, 0) && ZeroPage(sent[0].request.page)
    && second == (if Took(sent[0]) then 1 else 2)
    && |sent| == second + (if taken then 2 else 1)
    && (second == 2 ==> Sent(device, from, sent, 1, Reset))
    && Wrote(device, from, sent, second) && ZeroPage(sent[second].request.page)
    && taken == Took(sent[second])
    && (taken ==> Sent(device, from, sent, second + 1, Read))
  }

  ghost predicate DisableTry(device: nat -> Reply, from: nat, sent: seq<Exchange>) {
    exists taken: bool :: DisableRun(device, from, sent, taken)
  }

  /** What turning it on sends; the answer to the closing read decides nothing. */
  ghost predicate EnableRun(device: nat -> Reply, from: nat, sent: seq<Exchange>, taken: bool) {
    && |sent| == (if taken then 2 else 1)
    && Wrote(device, from, sent, 0) && EnablePage(sent[0].request.page)
    && taken == Took(sent[0])
    && (taken ==> Sent(device, from, sent, 1, Read))
  }

  /** What reporting sends with the feature on: the page for the head to disable, if it is to be sent, and a read. */
  ghost predicate ReportRun(device: nat -> Reply, from: nat, sent: seq<Exchange>, test: Option<nat>, length: Byte)
    requires test.Some? ==> test.value / 8 < FIELD_LENGTH
  {
    && |sent| == (if test.Some? then 2 else 1)
    && (test.Some? ==> Wrote(device, from, sent, 0) && DisablesHead(sent[0].request.page, length, test.value))
    && Sent(device, from, sent, |sent| - 1, Read)
  }

  /** A zero page the drive took, a read, and an enable page it took come right after one another. */
  lemma ClearedThenEnabled(device: nat -> Reply, from: nat, disable: seq<Exchange>, enable: seq<Exchange>)
    requires DisableRun(device, from, disable, true) && EnableRun(device, from + |disable|, enable, true)
    ensures var sent, k := disable + enable, |disable| - 2;
            && k > 0
            && Took(sent[k]) && ZeroPage(sent[k].request.page)
            && sent[k + 1].request == Read
            && Took(sent[k + 2]) && EnablePage(sent[k + 2].request.page)
            && LeftOn(sent)
  {
    var second: nat :| DisableRunAt(device, from, disable, second, true);
    var sent := disable + enable;
    assert sent == (disable + [enable[0]]) + [enable[1]];
    LeftOnSnoc(disable + [enable[0]], enable[1]);
    LeftOnSnoc(disable, enable[0]);
  }

  /** The return code made of a written page's answer: 0 exactly when it was clean. */
  function WriteResult(reply: Reply): (ret: int)
    ensures ret == 0 <==> Clean(reply)
  {
    if reply.ret != 0 then reply.ret else if reply.status % 2 == 1 then -1 else 0
  }

  // ---------- single bits ----------

  /** 1 << r. */
  function Shl1(r: nat): (b: Byte)
    requires r < 8
    ensures b > 0
  {
    if r == 0 then 1 else if r == 1 then 2 else if r == 2 then 4 else if r == 3 then 8
    else if r == 4 then 16 else if r == 5 then 32 else if r == 6 then 64 else 128
  }

  /** (v >> r) & 1, with the sign kept by the shift. */
  predicate Bit(v: int, r: nat)
    requires r < 8
  {
    v / Shl1(r) % 2 == 1
  }

  /** A shifted 1 has exactly the bit it was shifted to. */
  lemma BitOfShl1(r: nat, k: nat)
    requires r < 8 && k < 8
    ensures Bit(Shl1(r), k) <==> r == k
  {
    if r < k {
      assert Shl1(r) < Shl1(k);
    }
  }

  lemma Shl1Complement(r: nat)
    requires r < 8
    ensures 2 * Shl1(7 - r) * Shl1(r) == 256
  {
  }

  /** The mask's elements are plain chars: the shift finds the same bit in a char and in its byte. */
  lemma BitOfSigned(v: int, r: nat)
    requires -128 <= v < 128 && r < 8
    ensures Bit(v, r) <==> Bit(v % 256, r)
  {
    if v < 0 {
      Shl1Complement(r);
      ShiftByMultiple(v, Shl1(r), 2 * Shl1(7 - r));
      assert (v + 256) / Shl1(r) == v / Shl1(r) + 2 * Shl1(7 - r);
    }
  }

  lemma ShiftByMultiple(v: int, d: nat, m: nat)
    requires d > 0
    ensures (v + m * d) / d == v / d + m
  {
    var q := (v + m * d) / d;
    assert v + m * d == d * q + (v + m * d) % d;
    assert v == d * (v / d) + v % d;
    var k := q - v / d - m;
    assert d * k == v % d - (v + m * d) % d;
    MulSign(d, k);
  }

  // ---------- the drive's page as the host sees it ----------

  datatype LogData = LogData(flags: Byte, length: Byte, mask: seq<Byte>, disabled: seq<Byte>)

  /** The bits the listing loop extracts for a head. */
  predicate InMask(data: LogData, head: nat)
    requires head / 8 < |data.mask|
  {
    Bit(data.mask[head / 8], head % 8)
  }

  predicate IsDisabled(data: LogData, head: nat)
    requires head / 8 < |data.disabled|
  {
    Bit(data.disabled[head / 8], head % 8)
  }

  /** The host's copy of a page: flags, length, and as much of the two bit fields as the page holds. */
  ghost predicate Decodes(data: LogData, page: seq<Byte>)
    requires |page| == LOG_PAGE_SIZE && page[7] <= FIELD_LENGTH
  {
    && data.flags == page[0] && data.length == page[7]
    && |data.mask| == |data.disabled| == FIELD_LENGTH
    && forall i :: 0 <= i < FIELD_LENGTH ==>
         && data.mask[i] == (if i < page[7] then page[8 + i] else 0)
         && data.disabled[i] == (if i < page[7] then page[8 + page[7] + i] else 0)
  }

  /**
   A page that disables one head: the enable byte is 1, the bit field behind an element
   mask of the given length has exactly that head's bit set, and all else is 0.
   */
  ghost predicate DisablesHead(page: seq<Byte>, length: Byte, head: nat)
    requires head / 8 < FIELD_LENGTH
  {
    && |page| == LOG_PAGE_SIZE
    && page[0] == 1
    && (forall h: nat :: h / 8 < FIELD_LENGTH ==> (Bit(page[8 + length + h / 8], h % 8) <==> h == head))
    && (forall i :: 1 <= i < LOG_PAGE_SIZE && i != 8 + length + head / 8 ==> page[i] == 0)
  }

  lemma HeadByteDisablesHead(page: seq<Byte>, length: Byte, head: nat)
    requires head / 8 < FIELD_LENGTH
    requires |page| == LOG_PAGE_SIZE && page[0] == 1
    requires page[8 + length + head / 8] == Shl1(head % 8)
    requires forall i :: 1 <= i < LOG_PAGE_SIZE && i != 8 + length + head / 8 ==> page[i] == 0
    ensures DisablesHead(page, length, head)
  {
    forall h: nat | h / 8 < FIELD_LENGTH
      ensures Bit(page[8 + length + h / 8], h % 8) <==> h == head
    {
      if h / 8 == head / 8 {
        BitOfShl1(head % 8, h % 8);
      } else {
        assert page[8 + length + h / 8] == 0;
      }
    }
  }

  /**
   The round trip: when the drive's page shows the disabled field as it was written, the
   host's copy has that head and no other disabled; and it has none, when the head lies
   past the drive's element length.
   */
  lemma HeadRoundTrip(written: seq<Byte>, answer: seq<Byte>, data: LogData, head: nat, h: nat)
    requires head / 8 < FIELD_LENGTH && h / 8 < FIELD_LENGTH
    requires |answer| == LOG_PAGE_SIZE && answer[7] <= FIELD_LENGTH && Decodes(data, answer)
    requires DisablesHead(written, answer[7], head)
    requires var lo := 8 + answer[7]; answer[lo..][..answer[7]] == written[lo..][..answer[7]]
    ensures IsDisabled(data, h) <==> h == head && head / 8 < answer[7]
  {
    if h / 8 < answer[7] {
      var lo := 8 + answer[7];
      assert data.disabled[h / 8] == answer[lo..][..answer[7]][h / 8] == written[lo + h / 8];
      assert Bit(written[8 + answer[7] + h / 8], h % 8) <==> h == head;
    } else {
      assert data.disabled[h / 8] == 0;
    }
  }

  // ---------- the host ----------

  datatype HeadState = HeadState(head: nat, disabled: bool)

  /** The heads of a listing: those in the mask, within the element length, in order, each with its state. */
  ghost predicate Lists(heads: seq<HeadState>, data: LogData, length: Byte)
    requires length <= FIELD_LENGTH == |data.mask| == |data.disabled|
  {
    && (forall j, k :: 0 <= j < k < |heads| ==> heads[j].head < heads[k].head)
    && (forall k :: 0 <= k < |heads| ==>
          && heads[k].head / 8 < length && InMask(data, heads[k].head)
          && heads[k].disabled == IsDisabled(data, heads[k].head))
    && forall h: nat :: h / 8 < length && InMask(data, h) ==> HeadState(h, IsDisabled(data, h)) in heads
  }

  class RebuildAssist {
    var ahciMode: bool
    var ncqSupported: bool
    var supported: bool
    var enabled: bool
    var useFpdma: bool
    // The head to disable for testing, or negative.
    var test: int
    var elementLength: Byte
    var elementMask: seq<int>
    var status: Byte
    var logData: LogData
    // Everything sent to the drive so far, with its answers.
    var log: seq<Exchange>

    ghost predicate Valid()
      reads this
    {
      && elementLength <= FIELD_LENGTH
      && |elementMask| == FIELD_LENGTH && (forall i :: 0 <= i < FIELD_LENGTH ==> -128 <= elementMask[i] < 128)
      && |logData.mask| == |logData.disabled| == FIELD_LENGTH
      && test / 8 < FIELD_LENGTH
    }

    /** The host never believes less than the drive has acknowledged. */
    ghost predicate InStep()
      reads this
    {
      && (LeftOn(log) ==> useFpdma)
      && (enabled ==> useFpdma)
    }

    constructor (ahciMode: bool, ncqSupported: bool, supported: bool, test: int,
                 elementLength: Byte, elementMask: seq<int>)
      requires elementLength <= FIELD_LENGTH && |elementMask| == FIELD_LENGTH && test / 8 < FIELD_LENGTH
      requires forall i :: 0 <= i < FIELD_LENGTH ==> -128 <= elementMask[i] < 128
      ensures Valid() && InStep() && !enabled && !useFpdma && log == []
      ensures this.ahciMode == ahciMode && this.ncqSupported == ncqSupported && this.supported == supported
      ensures this.test == test && this.elementLength == elementLength && this.elementMask == elementMask
    {
      this.ahciMode, this.ncqSupported, this.supported := ahciMode, ncqSupported, supported;
      this.test, this.elementLength, this.elementMask := test, elementLength, elementMask;
      enabled, useFpdma, status, log := false, false, 0, [];
      logData := LogData(0, 0, seq(FIELD_LENGTH, _ => 0), seq(FIELD_LENGTH, _ => 0));
    }

    /** One request and its answer. */
    method Send(device: nat -> Reply, request: Request) returns (reply: Reply)
      modifies this`log, this`status
      ensures reply == device(|old(log)|) && status == reply.status
      ensures log == old(log) + [Exchange(request, reply)]
    {
      reply := device(|log|);
      log := log + [Exchange(request, reply)];
      status := reply.status;
    }

    /**
     Reads the drive's page into the host's copy. Of a page whose fields are longer than
     the host's nothing is said but that it was read.
     */
    method ReadLog(device: nat -> Reply) returns (ret: int, ghost sent: Exchange)
      requires Drive(device)
      modifies this`log, this`status, this`logData
      ensures sent == Exchange(Read, device(|old(log)|)) && log == old(log) + [sent]
      ensures ret == sent.reply.ret && status == sent.reply.status
      ensures LeftOn(log) == LeftOn(old(log))
      ensures |logData.mask| == |logData.disabled| == FIELD_LENGTH
      ensures sent.reply.page[7] <= FIELD_LENGTH ==> Decodes(logData, sent.reply.page)
    {
      LeftOnSnoc(log, Exchange(Read, device(|log|)));
      var reply := Send(device, Read);
      var page := reply.page;
      var length := page[7];
      var n: nat := length;
      var mask := CopyField(page, 8, length);
      var disabled := CopyField(page, 8 + n, length);
      logData := LogData(page[0], length, mask[..], disabled[..]);
      return reply.ret, Exchange(Read, reply);
    }

    /** A bit field cleared and then filled from the page. */
    static method CopyField(page: seq<Byte>, start: nat, length: Byte) returns (field: array<Byte>)
      requires |page| == LOG_PAGE_SIZE && start + FIELD_LENGTH <= LOG_PAGE_SIZE
      ensures fresh(field) && field.Length == FIELD_LENGTH
      ensures forall k :: 0 <= k < FIELD_LENGTH ==> field[k] == if k < length then page[start + k] else 0
    {
      field := new Byte[FIELD_LENGTH](_ => 0);
      for i := 0 to if length <= FIELD_LENGTH then length else FIELD_LENGTH
        invariant forall k :: 0 <= k < FIELD_LENGTH ==> field[k] == if k < i then page[start + k] else 0
      {
        field[i] := page[start + i];
      }
    }

    /** Sends a page. */
    method WriteLog(device: nat -> Reply, page: seq<Byte>) returns (ret: int, ghost sent: Exchange)
      requires |page| == LOG_PAGE_SIZE
      modifies this`log, this`status
      ensures sent == Exchange(Write(page), device(|old(log)|)) && log == old(log) + [sent]
      ensures ret == sent.reply.ret && status == sent.reply.status
      ensures LeftOn(log) == if Took(sent) then page[0] != 0 else LeftOn(old(log))
    {
      LeftOnSnoc(log, Exchange(Write(page), device(|log|)));
      var reply := Send(device, Write(page));
      return reply.ret, Exchange(Write(page), reply);
    }

    /** The first try, and the reset behind it if it did not go well. */
    method FirstTry(device: nat -> Reply, data: array<Byte>) returns (ghost sent: seq<Exchange>)
      requires ZeroPage(data[..])
      modifies this`log, this`status
      ensures log == old(log) + sent
      ensures Sent(device, |old(log)|, sent, 0, Write(data[..]))
      ensures if Took(sent[0]) then |sent| == 1 else |sent| == 2 && Sent(device, |old(log)|, sent, 1, Reset)
      ensures LeftOn(log) ==> LeftOn(old(log))
    {
      var ret, first := WriteLog(device, data[..]);
      sent := [first];
      if ret != 0 || status % 2 == 1 {
        LeftOnSnoc(log, Exchange(Reset, device(|log|)));
        var reply := Send(device, Reset);
        sent := sent + [Exchange(Reset, reply)];
      }
    }

    /** Two tries at an all-zero page, with a reset between them if the first did not go well. */
    method DisableRebuildAssist(device: nat -> Reply) returns (ret: int, ghost sent: seq<Exchange>)
      requires Drive(device) && Valid()
      modifies this`log, this`status, this`logData, this`useFpdma
      ensures Valid()
      ensures log == old(log) + sent && DisableRun(device, |old(log)|, sent, ret == 0)
      ensures ret != 0 ==> |sent| > 0 && ret == WriteResult(sent[|sent| - 1].reply)
      ensures useFpdma == (old(useFpdma) && ret != 0)
      ensures LeftOn(log) ==> LeftOn(old(log)) && ret != 0
    {
      var data := new Byte[LOG_PAGE_SIZE](_ => 0);
      ghost var first := FirstTry(device, data);
      ghost var second;
      ret, second := SecondTry(device, data);
      sent := first + second;
      assert DisableRunAt(device, |old(log)|, sent, |first|, ret == 0);
    }

    /** The second try, and a read if it went well. */
    method SecondTry(device: nat -> Reply, data: array<Byte>) returns (ret: int, ghost sent: seq<Exchange>)
      requires Drive(device) && Valid() && ZeroPage(data[..])
      modifies this`log, this`status, this`logData, this`useFpdma
      ensures Valid()
      ensures log == old(log) + sent && |sent| == (if ret == 0 then 2 else 1)
      ensures Sent(device, |old(log)|, sent, 0, Write(data[..]))
      ensures ret == WriteResult(sent[0].reply)
      ensures ret == 0 ==> Sent(device, |old(log)|, sent, 1, Read)
      ensures useFpdma == (old(useFpdma) && ret != 0)
      ensures LeftOn(log) ==> LeftOn(old(log)) && ret != 0
    {
      ghost var second;
      ret, second := WriteLog(device, data[..]);
      if ret != 0 {
        return ret, [second];
      }
      if status % 2 == 1 {
        return -1, [second];
      }
      var _, read := ReadLog(device);
      useFpdma := false;
      return 0, [second, read];
    }

    /** One page with only the enable byte set. */
    method EnableRebuildAssist(device: nat -> Reply) returns (ret: int, ghost sent: seq<Exchange>)
      requires Drive(device) && Valid()
      modifies this`log, this`status, this`logData, this`useFpdma
      ensures Valid()
      ensures log == old(log) + sent && EnableRun(device, |old(log)|, sent, ret == 0)
      ensures ret == WriteResult(sent[0].reply)
      ensures useFpdma == (old(useFpdma) || ret == 0)
      ensures LeftOn(log) <==> LeftOn(old(log)) || ret == 0
    {
      var data := new Byte[LOG_PAGE_SIZE](_ => 0);
      data[0] := 1;
      ghost var first;
      ret, first := WriteLog(device, data[..]);
      if ret != 0 {
        return ret, [first];
      }
      if status % 2 == 1 {
        return -1, [first];
      }
      var _, read := ReadLog(device);
      useFpdma := true;
      return 0, [first, read];
    }

    /**
     Disables one head. A page is sent exactly when the head's mask bit is set, it disables
     exactly that head, and the check on its place in the page never stops it.
     */
    method DisableHead(device: nat -> Reply, head: nat) returns (ret: int, ghost sent: seq<Exchange>)
      requires Valid() && head / 8 < FIELD_LENGTH
      modifies this`log, this`status
      ensures log == old(log) + sent
      ensures Bit(elementMask[head / 8] % 256, head % 8) ==>
                && |sent| == 1 && Wrote(device, |old(log)|, sent, 0)
                && DisablesHead(sent[0].request.page, elementLength, head)
                && ret == WriteResult(sent[0].reply)
      ensures !Bit(elementMask[head / 8] % 256, head % 8) ==> sent == [] && ret == -1
      ensures LeftOn(old(log)) ==> LeftOn(log)
    {
      var data := new Byte[LOG_PAGE_SIZE](_ => 0);
      var byteNumber := head / 8;
      var byteRemainder := head % 8;
      BitOfSigned(elementMask[byteNumber], byteRemainder);
      var checkMask := elementMask[byteNumber] / Shl1(byteRemainder);
      if checkMask % 2 == 0 {
        return -1, [];
      }
      var bytePlacement := 8 + elementLength + byteNumber;
      if bytePlacement >= LOG_PAGE_SIZE {
        return -1, [];
      }
      data[bytePlacement] := Shl1(byteRemainder);
      data[0] := 1;
      HeadByteDisablesHead(data[..], elementLength, head);
      ghost var page;
      ret, page := WriteLog(device, data[..]);
      if ret != 0 {
        return ret, [page];
      }
      if status % 2 == 1 {
        return -1, [page];
      }
      return 0, [page];
    }

    /** The heads the closing listing names: those in the drive's mask, in order, each with its state. */
    method ListHeads() returns (heads: seq<HeadState>)
      requires Valid()
      ensures Lists(heads, logData, elementLength)
    {
      heads := [];
      var head := 0;
      while head / 8 < elementLength
        invariant forall j, k :: 0 <= j < k < |heads| ==> heads[j].head < heads[k].head
        invariant forall k :: 0 <= k < |heads| ==> heads[k].head < head && Listed(heads[k])
        invariant forall h: nat :: h < head && h / 8 < elementLength && InMask(logData, h) ==>
                    HeadState(h, IsDisabled(logData, h)) in heads
        decreases 8 * elementLength - head
      {
        hide Shl1;
        var byteNumber := head / 8;
        var byteRemainder := head % 8;
        var checkMask := logData.mask[byteNumber] / Shl1(byteRemainder) % 2;
        var disabled := logData.disabled[byteNumber] / Shl1(byteRemainder) % 2;
        if checkMask == 1 && disabled == 1 {
          heads := heads + [HeadState(head, true)];
        } else if checkMask == 1 {
          heads := heads + [HeadState(head, false)];
        }
        head := head + 1;
      }
    }

    ghost predicate Listed(state: HeadState)
      reads this
      requires Valid()
    {
      && state.head / 8 < elementLength
      && InMask(logData, state.head)
      && state.disabled == IsDisabled(logData, state.head)
    }

    /** The second half, with the feature off on both sides. */
    method EnableStage(device: nat -> Reply)
      returns (ret: int, heads: seq<HeadState>, ghost enable: seq<Exchange>, ghost rest: seq<Exchange>)
      requires Drive(device) && Valid() && !enabled && !useFpdma && !LeftOn(log)
      modifies this`log, this`status, this`logData, this`useFpdma, this`enabled
      ensures Valid()
      ensures log == old(log) + enable + rest
      ensures ret == 0 || ret == -1
      ensures EnableRun(device, |old(log)|, enable, ret == 0)
      ensures enabled == useFpdma == LeftOn(log) == (ret == 0)
      ensures ret != 0 ==> DisableTry(device, |old(log)| + |enable|, rest) && heads == []
      ensures ret == 0 ==>
                && ReportRun(device, |old(log)| + |enable|, rest, TestHead(), elementLength)
                && Lists(heads, logData, elementLength)
                && var page := rest[|rest| - 1].reply.page; page[7] <= FIELD_LENGTH ==> Decodes(logData, page)
    {
      ret, heads, rest := -1, [], [];
      var failed;
      failed, enable := EnableRebuildAssist(device);
      if failed != 0 {
        failed, rest := DisableRebuildAssist(device);
        return;
      }
      enabled := true;
      heads, rest := Report(device);
      ret := 0;
    }

    /** The head a page is sent for when the feature has been turned on: the one for testing, if it is masked. */
    ghost function TestHead(): (head: Option<nat>)
      requires Valid()
      reads this
      ensures head.Some? ==> head.value / 8 < FIELD_LENGTH
    {
      if test >= 0 && Bit(elementMask[test / 8] % 256, test % 8) then Some(test) else None
    }

    /** Only for testing. */
    method DisableTestHead(device: nat -> Reply) returns (ghost sent: seq<Exchange>)
      requires Valid()
      modifies this`log, this`status
      ensures log == old(log) + sent
      ensures TestHead().None? ==> sent == []
      ensures TestHead().Some? ==>
                && |sent| == 1 && Wrote(device, |old(log)|, sent, 0)
                && DisablesHead(sent[0].request.page, elementLength, TestHead().value)
      ensures LeftOn(old(log)) ==> LeftOn(log)
    {
      sent := [];
      var ignored;
      if test >= 0 {
        ignored, sent := DisableHead(device, test);
      }
    }

    /** With the feature on: the head to disable for testing, if any, and the listing. */
    method Report(device: nat -> Reply) returns (heads: seq<HeadState>, ghost rest: seq<Exchange>)
      requires Drive(device) && Valid()
      modifies this`log, this`status, this`logData
      ensures Valid() && log == old(log) + rest
      ensures ReportRun(device, |old(log)|, rest, TestHead(), elementLength)
      ensures Lists(heads, logData, elementLength)
      ensures var page := rest[|rest| - 1].reply.page; page[7] <= FIELD_LENGTH ==> Decodes(logData, page)
      ensures LeftOn(old(log)) ==> LeftOn(log)
    {
      rest := DisableTestHead(device);
      var ignored, read := ReadLog(device);
      rest := rest + [read];
      heads := ListHeads();
    }

    /**
     The whole protocol. It returns 0 exactly when the feature is there, a disabling run
     ended with the zero page taken, and the enabling run right behind it had the enable
     page taken (ClearedThenEnabled says what that makes of the exchange). If it fails
     earlier the flags are as they were, and if it fails at the enable page both are false.
     A successful run disables the head for testing, if there is one and it is masked, and
     lists the masked heads with their states as the page read last has them.
     Whatever happens the flags stay equal if they were, and the host in step with the drive.
     */
    method SetRebuildAssistEnabled(device: nat -> Reply)
      returns (ret: int, heads: seq<HeadState>,
               ghost disable: seq<Exchange>, ghost enable: seq<Exchange>, ghost rest: seq<Exchange>)
      requires Drive(device) && Valid()
      modifies this`log, this`status, this`logData, this`useFpdma, this`enabled
      ensures Valid()
      ensures log == old(log) + disable + enable + rest
      ensures ret == 0 || ret == -1
      ensures !(ahciMode && ncqSupported && supported) ==> ret == -1 && disable == enable == rest == []
      ensures ahciMode && ncqSupported && supported ==> DisableRun(device, |old(log)|, disable, enable != [])
      ensures enable == [] ==> ret == -1 && rest == [] && enabled == old(enabled) && useFpdma == old(useFpdma)
      ensures enable != [] ==>
                && EnableRun(device, |old(log)| + |disable|, enable, ret == 0)
                && enabled == useFpdma == LeftOn(log) == (ret == 0)
                && (ret == -1 ==> DisableTry(device, |old(log)| + |disable| + |enable|, rest))
      ensures ret != 0 ==> heads == []
      ensures ret == 0 ==>
                && ReportRun(device, |old(log)| + |disable| + |enable|, rest, TestHead(), elementLength)
                && Lists(heads, logData, elementLength)
                && var page := rest[|rest| - 1].reply.page; page[7] <= FIELD_LENGTH ==> Decodes(logData, page)
      ensures old(enabled == useFpdma) ==> enabled == useFpdma
      ensures old(InStep()) ==> InStep()
    {
      hide Lists, ReportRun, DisableRun, EnableRun, DisableTry, Decodes;
      ret, heads, disable, enable, rest := -1, [], [], [], [];
      if !ahciMode {
        return;
      }
      if !ncqSupported || !supported {
        return;
      }
      var failed;
      failed, disable := DisableRebuildAssist(device);
      if failed != 0 {
        return;
      }
      enabled := false;
      ret, heads, enable, rest := EnableStage(device);
    }

    /**
     Turning the feature off, which clears the enabled flag even when the drive refused.
     The host stays in step, but the flags are equal afterwards exactly when there was
     nothing to turn off or the drive took the zero page.
     */
    method SetRebuildAssistDisabled(device: nat -> Reply)
      returns (ghost disable: seq<Exchange>, ghost taken: bool, ghost read: Exchange)
      requires Drive(device) && Valid()
      modifies this`log, this`status, this`logData, this`useFpdma, this`enabled
      ensures Valid() && log == old(log) + disable + [read]
      ensures read == Exchange(Read, device(|old(log)| + |disable|))
      ensures if ncqSupported && supported then DisableRun(device, |old(log)|, disable, taken)
              else disable == [] && !taken
      ensures !enabled && useFpdma == (old(useFpdma) && !taken)
      ensures enabled == useFpdma <==> !old(useFpdma) || taken
      ensures old(InStep()) ==> InStep()
    {
      disable, taken := [], false;
      if ncqSupported && supported {
        var ret;
        ret, disable := DisableRebuildAssist(device);
        taken := ret == 0;
      }
      enabled := false;
      var ignored;
      ignored, read := ReadLog(device);
    }
  }

  /** A drive that takes everything has the feature turned on. */
  method TurnedOn(device: nat -> Reply) returns (host: RebuildAssist)
    requires Drive(device) && forall k :: Clean(device(k))
    ensures fresh(host) && host.Valid() && host.enabled && host.useFpdma && LeftOn(host.log)
    ensures host.ncqSupported && host.supported
  {
    host := new RebuildAssist(true, true, true, -1, 0, seq(FIELD_LENGTH, _ => 0));
    var ret, heads, disable, enable, rest := host.SetRebuildAssistEnabled(device);
    assert enable != [];
  }

  /**
   A drive that takes everything and then, asked to turn the feature off, refuses: the host
   no longer calls it enabled, and goes on using it.
   */
  method RefusedDisable() returns (host: RebuildAssist)
    ensures fresh(host) && !host.enabled && host.useFpdma && LeftOn(host.log)
  {
    var page := seq(LOG_PAGE_SIZE, _ => 0);
    host := TurnedOn((k: nat) => Reply(0, 0, page));
    var device := (k: nat) => Reply(-1, 0, page);
    ghost var before := host.log;
    var disable, taken, read := host.SetRebuildAssistDisabled(device);
    Refusal(device, before, disable, taken, read);
  }

  /** What a drive refuses does not turn it off. */
  lemma Refusal(device: nat -> Reply, log: seq<Exchange>, disable: seq<Exchange>, taken: bool, read: Exchange)
    requires DisableRun(device, |log|, disable, taken) && read.request == Read
    requires forall k :: !Clean(device(k))
    ensures !taken && LeftOn(log + disable + [read]) == LeftOn(log)
  {
    var second: nat :| DisableRunAt(device, |log|, disable, second, taken);
    LeftOnSnoc(log, disable[0]);
    LeftOnSnoc(log + [disable[0]], disable[1]);
    LeftOnSnoc(log + [disable[0]] + [disable[1]], disable[2]);
    LeftOnSnoc(log + disable, read);
    assert log + disable == log + [disable[0]] + [disable[1]] + [disable[2]];
  }
}
