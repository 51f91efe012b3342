/** The text key of a camera, shared by the channel map, the status reports and the PTZ lookup. */
module Keys {
  import opened Text

  /** Longest text that snprintf leaves in the 63 bytes it is given. */
  const KEY_MAX: nat := 62

  /** Address and port as one text, cut off where the buffer ends. */
  function IpcUrl(addr: string, port: int): (key: string)
    ensures key != ""
  {
    var full := addr + ":" + Decimal(port);
    if |full| <= KEY_MAX then full else full[..KEY_MAX]
  }

  /** The key was not cut off. */
  predicate Fits(addr: string, port: int) {
    |addr + ":" + Decimal(port)| <= KEY_MAX
  }

  /** A key is "address:port", or its first 62 characters. */
  lemma KeyText(addr: string, port: int)
    ensures var full := addr + ":" + Decimal(port);
            IpcUrl(addr, port) <= full && |IpcUrl(addr, port)| == if |full| <= 62 then |full| else 62
    ensures Fits(addr, port) <==> |addr| + 1 + |Decimal(port)| <= 62
  {
  }

  /** As in this one. */
  lemma KeySpelled()
    ensures IpcUrl("10.0.0.1", 5060) == "10.0.0.1:5060" && Decimal(-42) == "-42"
  {
    assert Digits(5060) == Digits(506) + "0" && Digits(506) == Digits(50) + "6" && Digits(50) == Digits(5) + "0";
    assert Digits(5060) == "5060";
    assert Digits(42) == Digits(4) + "2";
    KeyText("10.0.0.1", 5060);
  }

  /** Keys that were not cut off name one camera each, whatever characters the address has. */
  lemma IpcUrlInjective(addr: string, port: int, addr': string, port': int)
    requires Fits(addr, port) && Fits(addr', port')
    ensures IpcUrl(addr, port) == IpcUrl(addr', port') <==> addr == addr' && port == port'
  {
    if IpcUrl(addr, port) == IpcUrl(addr', port') {
      SplitAtLast(addr, Decimal(port), addr', Decimal(port'), ':');
      DecimalInjective(port, port');
    }
  }

  /** Cut-off keys can meet: an address of 62 characters hides every port. */
  lemma LongAddressesCollide(addr: string, port: int, port': int)
    requires |addr| >= KEY_MAX
    ensures IpcUrl(addr, port) == IpcUrl(addr, port')
  {
    assert (addr + ":" + Decimal(port))[..KEY_MAX] == addr[..KEY_MAX];
    assert (addr + ":" + Decimal(port'))[..KEY_MAX] == addr[..KEY_MAX];
  }
}
