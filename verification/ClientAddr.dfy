/**
 The client's address (module.go): the X-Forwarded-For chain read from the proxies' end. Reading an
 address and the trust of one are given: `read` is addrOf, `trusted` is isTrusted over the list.
 */
module ClientAddr {
  import opened Options
  import opened Text

  type Addr = string
  type Reader = string -> Option<Addr>

  // --------------------------------------------------------------- forwardedChain

  function Blanked(es: seq<string>): seq<string> {
    if es == [] then [] else (if Trim(es[0]) == "" then [] else [Trim(es[0])]) + Blanked(es[1..])
  }

  function Chain(values: seq<string>): seq<string> {
    if values == [] then [] else Blanked(Split(values[0], ',')) + Chain(values[1..])
  }

  /** forwardedChain. */
  method ForwardedChain(values: seq<string>) returns (chain: seq<string>)
    ensures chain == Chain(values)
  {
    chain := [];
    assert values[0..] == values;
    for i := 0 to |values|
      invariant chain + Chain(values[i..]) == Chain(values)
    {
      ChainStep(values, i, chain);
      chain := AppendElements(chain, Split(values[i], ','));
    }
    assert values[|values|..] == [];
  }

  lemma ChainStep(values: seq<string>, i: nat, chain: seq<string>)
    requires i < |values|
    ensures chain + Chain(values[i..]) == (chain + Blanked(Split(values[i], ','))) + Chain(values[i + 1..])
  {
    var rest := values[i + 1..];
    assert values[i..] == [values[i]] + rest && ([values[i]] + rest)[1..] == rest;
    var es := Blanked(Split(values[i], ','));
    assert Chain([values[i]] + rest) == es + Chain(rest);
    assert chain + (es + Chain(rest)) == (chain + es) + Chain(rest);
  }

  /** forwardedChain's inner loop: the elements of one header line. */
  method AppendElements(chain: seq<string>, es: seq<string>) returns (grown: seq<string>)
    ensures grown == chain + Blanked(es)
  {
    grown := chain;
    assert es[0..] == es;
    for j := 0 to |es|
      invariant grown + Blanked(es[j..]) == chain + Blanked(es)
    {
      var e := Trim(es[j]);
      ghost var rest := Blanked(es[j + 1..]);
      assert es[j..][0] == es[j] && es[j..][1..] == es[j + 1..];
      if e != "" {
        assert grown + ([e] + rest) == (grown + [e]) + rest;
        grown := grown + [e];
      } else {
        assert [] + rest == rest;
      }
    }
    assert es[|es|..] == [];
  }

  lemma {:induction false} BlankedConcat(a: seq<string>, b: seq<string>)
    ensures Blanked(a + b) == Blanked(a) + Blanked(b)
  {
    if a == [] {
      assert a + b == b;
    } else {
      assert (a + b)[1..] == a[1..] + b;
      BlankedConcat(a[1..], b);
    }
  }

  lemma {:induction false} SplitConcat(a: string, b: string, sep: char)
    ensures Split(a + [sep] + b, sep) == Split(a, sep) + Split(b, sep)
  {
    if a == "" {
      assert (a + [sep] + b)[1..] == b;
    } else {
      var s := a[1..] + [sep] + b;
      assert a + [sep] + b == [a[0]] + s;
      SplitConcat(a[1..], b, sep);
      SplitStep(a[0], s, sep);
      SplitStep(a[0], a[1..], sep);
      assert a == [a[0]] + a[1..];
      PutConcat(a[0], Split(a[1..], sep), Split(b, sep), sep);
    }
  }

  /** One character in front of a split text. */
  function Put(c: char, parts: seq<string>, sep: char): seq<string>
    requires parts != []
  {
    if c == sep then [""] + parts else [[c] + parts[0]] + parts[1..]
  }

  lemma SplitStep(c: char, s: string, sep: char)
    ensures Split([c] + s, sep) == Put(c, Split(s, sep), sep)
  {
    assert ([c] + s)[1..] == s;
  }

  lemma PutConcat(c: char, a: seq<string>, b: seq<string>, sep: char)
    requires a != []
    ensures Put(c, a + b, sep) == Put(c, a, sep) + b
  {
    assert (a + b)[1..] == a[1..] + b;
  }

  /** A header sent in two lines is the header sent in one: the chain does not depend on where the
      proxies cut it. */
  lemma ChainJoins(a: string, b: string, rest: seq<string>)
    ensures Chain([a, b] + rest) == Chain([a + "," + b] + rest)
  {
    assert ([a, b] + rest)[1..] == [b] + rest && ([b] + rest)[1..] == rest && ([a + "," + b] + rest)[1..] == rest;
    SplitConcat(a, b, ',');
    assert a + [','] + b == a + "," + b;
    BlankedConcat(Split(a, ','), Split(b, ','));
  }

  /** A hop as a proxy writes it: its text, and the white space around. */
  datatype Hop = Hop(left: string, text: string, right: string)

  predicate LegalHop(h: Hop) {
    AllSpace(h.left) && AllSpace(h.right) && Trimmed(h.text) && Lacks(h.text, ',')
  }

  function Written(hops: seq<Hop>): seq<string> {
    if hops == [] then [] else [hops[0].left + (hops[0].text + hops[0].right)] + Written(hops[1..])
  }

  /** The texts that are not blank. */
  function Texts(hops: seq<Hop>): seq<string> {
    if hops == [] then [] else (if hops[0].text == "" then [] else [hops[0].text]) + Texts(hops[1..])
  }

  lemma {:induction false} BlankedTexts(hops: seq<Hop>)
    requires forall i :: 0 <= i < |hops| ==> LegalHop(hops[i])
    ensures Blanked(Written(hops)) == Texts(hops) && |Written(hops)| == |hops|
    ensures forall i :: 0 <= i < |hops| ==> Lacks(Written(hops)[i], ',')
  {
    if hops != [] {
      var h, rest := hops[0], Written(hops[1..]);
      BlankedTexts(hops[1..]);
      TrimTrims(h.left, h.text, h.right);
      assert !IsSpace(',');
      assert Written(hops)[0] == h.left + (h.text + h.right) && Written(hops)[1..] == rest;
    }
  }

  /** A header line reads as the hops written in it, in their order, the white space around them and the
      blank ones dropped. */
  lemma ChainAsWritten(hops: seq<Hop>)
    requires hops != [] && forall i :: 0 <= i < |hops| ==> LegalHop(hops[i])
    ensures Chain([Join(Written(hops), ",")]) == Texts(hops)
  {
    BlankedTexts(hops);
    JoinSplits(Written(hops), ',');
    var line := Join(Written(hops), ",");
    assert [line][1..] == [] && Texts(hops) + [] == Texts(hops);
  }

  // ------------------------------------------------------------------- clientAddr

  /** clientAddr with a list of trusted proxies: None is the empty address. */
  method Resolve(peer: string, chain: seq<string>, read: Reader, trusted: Addr -> bool) returns (last: Option<Addr>)
    ensures last == (if read(peer).None? || !trusted(read(peer).value) then read(peer) else Some(Walk(chain, read(peer).value, read, trusted)))
  {
    last := read(peer);
    if last.None? || !trusted(last.value) {
      return;
    }
    var i := |chain|;
    assert chain[..i] == chain;
    while i > 0
      invariant 0 <= i <= |chain| && last.Some?
      invariant Walk(chain[..i], last.value, read, trusted) == Walk(chain, read(peer).value, read, trusted)
    {
      i := i - 1;
      assert chain[..i + 1][..i] == chain[..i] && chain[..i + 1][i] == chain[i];
      var a := read(chain[i]);
      if a.None? {
        return;
      }
      last := a;
      if !trusted(a.value) {
        return;
      }
    }
    assert chain[..0] == [];
  }

  /** From the right: on past trusted addresses, to the first that is not, or to the last one read. */
  function Walk(chain: seq<string>, last: Addr, read: Reader, trusted: Addr -> bool): Addr
    decreases |chain|
  {
    if chain == [] then last
    else
      var n := |chain| - 1;
      match read(chain[n])
      case None => last
      case Some(a) => if trusted(a) then Walk(chain[..n], a, read, trusted) else a
  }

  /** clientAddr without a list: the element the peer appended, if it reads. */
  function LastHop(peer: string, chain: seq<string>, read: Reader): Option<Addr> {
    if chain == [] || read(chain[|chain| - 1]).None? then read(peer) else read(chain[|chain| - 1])
  }

  /** clientAddr. A peer that reads always gives an address: a client cannot choose "no address". */
  method ClientAddr(peer: string, headers: seq<string>, read: Reader, proxies: Option<Addr -> bool>) returns (r: Option<Addr>)
    ensures r == Answer(peer, Chain(headers), read, proxies)
    ensures read(peer).Some? ==> r.Some?
    ensures proxies.None? ==>
      var n := |Chain(headers)|; r == if n > 0 && read(Chain(headers)[n - 1]).Some? then read(Chain(headers)[n - 1]) else read(peer)
  {
    var chain := ForwardedChain(headers);
    if proxies.None? {
      if |chain| == 0 {
        return read(peer);
      }
      var a := read(chain[|chain| - 1]);
      return if a.Some? then a else read(peer);
    }
    r := Resolve(peer, chain, read, proxies.value);
  }

  function Answer(peer: string, chain: seq<string>, read: Reader, proxies: Option<Addr -> bool>): Option<Addr> {
    if proxies.None? then LastHop(peer, chain, read)
    else if read(peer).None? || !proxies.value(read(peer).value) then read(peer)
    else Some(Walk(chain, read(peer).value, read, proxies.value))
  }

  /** The hop ends the walk: not an address, or not one of the proxies'. */
  predicate Stops(hop: string, read: Reader, trusted: Addr -> bool) { read(hop).None? || !trusted(read(hop).value) }

  /** The client, stated over the whole path of hops, client's end first, peer last: at the rightmost
      hop that is unreadable or untrusted, the address itself, or the address after it when it is
      unreadable; when there is none, the leftmost. */
  ghost predicate IsClient(hops: seq<string>, read: Reader, trusted: Addr -> bool, a: Option<Addr>)
    requires hops != []
  {
    || (exists i :: Rightmost(hops, read, trusted, i) && a == AtOrAfter(hops, read, i))
    || ((forall i :: 0 <= i < |hops| ==> !Stops(hops[i], read, trusted)) && a == read(hops[0]))
  }

  function AtOrAfter(hops: seq<string>, read: Reader, i: int): Option<Addr>
    requires 0 <= i < |hops|
  {
    if read(hops[i]).Some? then read(hops[i]) else if i + 1 < |hops| then read(hops[i + 1]) else None
  }

  ghost predicate Rightmost(hops: seq<string>, read: Reader, trusted: Addr -> bool, i: int) {
    0 <= i < |hops| && Stops(hops[i], read, trusted) && forall j :: i < j < |hops| ==> !Stops(hops[j], read, trusted)
  }

  lemma {:induction false} WalkFinds(chain: seq<string>, after: seq<string>, read: Reader, trusted: Addr -> bool)
    requires after != [] && read(after[0]).Some? && forall j :: 0 <= j < |after| ==> !Stops(after[j], read, trusted)
    ensures IsClient(chain + after, read, trusted, Some(Walk(chain, read(after[0]).value, read, trusted)))
    decreases |chain|
  {
    var hops := chain + after;
    if chain == [] {
      assert hops == after;
    } else {
      var n := |chain| - 1;
      assert hops[n] == chain[n] && forall j :: n < j < |hops| ==> hops[j] == after[j - |chain|];
      if Stops(chain[n], read, trusted) {
        assert Rightmost(hops, read, trusted, n);
        assert hops[n + 1] == after[0];
      } else {
        assert hops == chain[..n] + ([chain[n]] + after);
        WalkFinds(chain[..n], [chain[n]] + after, read, trusted);
      }
    }
  }

  /** clientAddr refines "the rightmost untrusted address". */
  lemma AnswerIsClient(peer: string, chain: seq<string>, read: Reader, trusted: Addr -> bool)
    ensures IsClient(chain + [peer], read, trusted, Answer(peer, chain, read, Some(trusted)))
  {
    var hops := chain + [peer];
    if Stops(peer, read, trusted) {
      assert hops[|chain|] == peer;
      assert Rightmost(hops, read, trusted, |chain|);
      assert Answer(peer, chain, read, Some(trusted)) == AtOrAfter(hops, read, |chain|);
    } else {
      WalkFinds(chain, [peer], read, trusted);
    }
  }

  lemma {:induction false} WalkIgnoresLeft(forged: seq<string>, chain: seq<string>, last: Addr, read: Reader, trusted: Addr -> bool)
    requires exists i :: 0 <= i < |chain| && Stops(chain[i], read, trusted)
    ensures Walk(forged + chain, last, read, trusted) == Walk(chain, last, read, trusted)
    decreases |chain|
  {
    var n := |chain| - 1;
    assert (forged + chain)[|forged| + n] == chain[n] && (forged + chain)[..|forged| + n] == forged + chain[..n];
    if !Stops(chain[n], read, trusted) {
      var i :| 0 <= i < |chain| && Stops(chain[i], read, trusted);
      assert chain[..n][i] == chain[i];
      WalkIgnoresLeft(forged, chain[..n], read(chain[n]).value, read, trusted);
    }
  }

  /** What a client writes into the header itself does not matter: with a list, nothing on the left
      of an untrusted or unreadable element does; without one, nothing on the left of the last. */
  lemma ForgedHopsIgnored(peer: string, forged: seq<string>, chain: seq<string>, read: Reader, proxies: Option<Addr -> bool>)
    requires proxies.None? ==> chain != []
    requires proxies.Some? ==> exists i :: 0 <= i < |chain| && Stops(chain[i], read, proxies.value)
    ensures Answer(peer, forged + chain, read, proxies) == Answer(peer, chain, read, proxies)
  {
    if proxies.None? {
      assert (forged + chain)[|forged + chain| - 1] == chain[|chain| - 1];
    } else if read(peer).Some? && proxies.value(read(peer).value) {
      WalkIgnoresLeft(forged, chain, read(peer).value, read, proxies.value);
    }
  }
}
