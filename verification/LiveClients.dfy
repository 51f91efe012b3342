/** Forwarding a camera's payloads to a live viewer, cut into packets. */
module LiveClients {
  import opened Bytes

  const RTP_PACK_SIZE: nat := 1400

  /** The packets of one payload, in order. */
  function Packets(payload: seq<byte>): seq<seq<byte>> {
    if payload == [] then []
    else if |payload| <= RTP_PACK_SIZE then [payload]
    else [payload[..RTP_PACK_SIZE]] + Packets(payload[RTP_PACK_SIZE..])
  }

  lemma PacketsHead(payload: seq<byte>)
    requires payload != []
    ensures var len := if |payload| > RTP_PACK_SIZE then RTP_PACK_SIZE else |payload|;
            Packets(payload) == [payload[..len]] + Packets(payload[len..])
  {
    assert payload[..|payload|] == payload;
  }

  lemma PacketsOfNone()
    ensures Packets([]) == []
  {
  }

  function Join(packets: seq<seq<byte>>): seq<byte> {
    if packets == [] then [] else packets[0] + Join(packets[1..])
  }

  /** Nothing is left out, added or moved, only the last packet is short, and none is empty. */
  lemma {:induction false} PacketsSplit(payload: seq<byte>)
    ensures Join(Packets(payload)) == payload
    ensures |Packets(payload)| == (|payload| + 1399) / 1400
    ensures forall i :: 0 <= i < |Packets(payload)| - 1 ==> |Packets(payload)[i]| == 1400
    ensures forall packet <- Packets(payload) :: 0 < |packet| <= 1400
  {
    if |payload| > RTP_PACK_SIZE {
      PacketsSplit(payload[RTP_PACK_SIZE..]);
      assert Packets(payload)[1..] == Packets(payload[RTP_PACK_SIZE..]);
    } else if payload != [] {
      assert Packets(payload)[1..] == [];
      assert payload + [] == payload;
    }
  }

  /** A live client as others see it: its camera, whether it is open, the packets it tried to send. */
  datatype Client = Client(url: string, isOpen: bool, got: seq<seq<byte>>)

  predicate Listens(c: Client, url: string) { c.isOpen && c.url == url }

  function Handed(c: Client, url: string, payload: seq<byte>): Client {
    if Listens(c, url) then c.(got := c.got + Packets(payload)) else c
  }

  class LiveRtpCli {
    /** What the n-th SendPacket returns; negative for an error. */
    const network: nat -> int
    /** Tells clients apart. */
    ghost const number: nat
    var isOpen: bool
    var ipcAddr: string
    var port: int
    var svrAddr: string
    var svrPort: int
    var attempts: seq<seq<byte>>

    ghost function View(): Client
      reads this
    {
      Client(ipcAddr, isOpen, attempts)
    }

    constructor (network: nat -> int, ghost number: nat)
      ensures this.network == network && this.number == number && View() == Client("", false, [])
    {
      this.network, this.number := network, number;
      isOpen, ipcAddr, port, svrAddr, svrPort, attempts := false, "", 0, "", 0, [];
    }

    method Open(port: int, ipcAddr: string, svrAddr: string, svrPort: int, connects: bool) returns (ret: int)
      modifies this
      ensures ret == if old(isOpen) || connects then 0 else -1
      ensures old(isOpen) ==> View() == old(View())
      ensures !old(isOpen) ==> View() == Client(ipcAddr, connects, old(attempts)) && this.port == port
    {
      if !isOpen {
        this.port, this.ipcAddr, this.svrAddr, this.svrPort := port, ipcAddr, svrAddr, svrPort;
        if !connects {
          return -1;
        }
        isOpen := true;
      }
      return 0;
    }

    method Close()
      modifies this
      ensures View() == old(View()).(isOpen := false)
    {
      if isOpen {
        isOpen := false;
      }
    }

    method SendPacket(packet: seq<byte>) returns (ret: int)
      modifies this`attempts
      ensures attempts == old(attempts) + [packet] && ret == network(|old(attempts)|)
    {
      ret := network(|attempts|);
      attempts := attempts + [packet];
    }

    /** Sends a payload of the right camera packet by packet; an error does not stop the rest, and
        the last packet's result is what the caller sees. */
    method SendRtp(url: string, payload: seq<byte>) returns (ret: int)
      modifies this
      ensures View() == Handed(old(View()), url, payload)
      ensures ret == if Listens(old(View()), url) && payload != [] then network(|attempts| - 1) else -1
    {
      hide Packets;
      PacketsOfNone();
      ret := -1;
      if !isOpen {
        return;
      }
      if url == ipcAddr {
        var rest := payload;
        ghost var sent: seq<seq<byte>> := [];
        while |rest| > 0
          invariant ipcAddr == old(ipcAddr) && isOpen
          invariant attempts == old(attempts) + sent
          invariant sent + Packets(rest) == Packets(payload)
          invariant if sent == [] then rest == payload && ret == -1 else ret == network(|attempts| - 1)
        {
          var len := if |rest| > RTP_PACK_SIZE then RTP_PACK_SIZE else |rest|;
          PacketsHead(rest);
          ret := SendPacket(rest[..len]);
          sent := sent + [rest[..len]];
          rest := rest[len..];
        }
      }
    }
  }
}
