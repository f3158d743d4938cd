/** `write_all_fd`, src/session.rs:854-889: a loop of non-blocking writes to the pty
    master, against a kernel that may take any part of what it is offered. */
module PtyWrite {
  import opened Codec

  datatype Attempt = Wrote(n: nat) | WouldBlock | Failed

  datatype Outcome = AllWritten | WroteZero | WriteError

  /** The master's input side.  `stalls` bounds the would-blocks still to come;
      `failures` and `zeros` count the calls that failed and the zero-byte writes. */
  class Master {
    var taken: seq<byte>
    var stalls: nat
    var failures: nat
    var zeros: nat

    constructor (blocks: nat)
      ensures taken == [] && stalls == blocks && failures == 0 && zeros == 0
    {
      taken, stalls, failures, zeros := [], blocks, 0, 0;
    }

    /** Wait until writable, then one `try_io` around `libc::write`; either can fail. */
    method Write(offered: seq<byte>) returns (r: Attempt)
      modifies this
      ensures failures == old(failures) + if r.Failed? then 1 else 0
      ensures zeros == old(zeros) + if r == Wrote(0) then 1 else 0
      ensures r.Wrote? ==> r.n <= |offered| && taken == old(taken) + offered[..r.n] && stalls == old(stalls)
      ensures r.WouldBlock? ==> taken == old(taken) && stalls == old(stalls) - 1
      ensures r.Failed? ==> taken == old(taken)
    {
      if * {
        failures := failures + 1;
        return Failed;
      }
      if stalls > 0 {
        if * {
          stalls := stalls - 1;
          return WouldBlock;
        }
      }
      var k: nat :| k <= |offered|;
      taken := taken + offered[..k];
      if k == 0 {
        zeros := zeros + 1;
      }
      r := Wrote(k);
    }
  }

  /** Exactly the input, in order, unless a call failed or wrote zero bytes; then that
      error, after a proper prefix.  Short writes and would-blocks never end it.  The loop
      ends because each turn uses up a stall or at least one byte: a zero-byte write is
      an error, not another turn. */
  method WriteAllFd(am: Master, data: seq<byte>) returns (r: Outcome)
    modifies am
    ensures am.failures == old(am.failures) + if r.WriteError? then 1 else 0
    ensures am.zeros == old(am.zeros) + if r.WroteZero? then 1 else 0
    ensures r == AllWritten ==> am.taken == old(am.taken) + data
    ensures r != AllWritten ==>
              exists off: nat :: off < |data| && am.taken == old(am.taken) + data[..off]
  {
    var off: nat := 0;
    while off < |data|
      invariant off <= |data|
      invariant am.taken == old(am.taken) + data[..off]
      invariant am.failures == old(am.failures) && am.zeros == old(am.zeros)
      decreases |data| - off + am.stalls
    {
      var res := am.Write(data[off..]);
      match res {
        case Wrote(n) =>
          if n == 0 {
            return WroteZero;
          }
          assert data[..off] + data[off..][..n] == data[..off + n];
          off := off + n;
        case WouldBlock =>
        case Failed => return WriteError;
      }
    }
    assert data[..off] == data;
    r := AllWritten;
  }
}
