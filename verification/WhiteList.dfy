/** src/util.cpp and src/global_white_list.h: address ranges by prefix length, and the lists made of them. */
module WhiteList {
  import opened Bytes

  // ----- 32-bit words, as their bits from the most significant down -----

  type Word = w: seq<bool> | |w| == 32 witness seq(32, _ => false)

  /** 0xffffffff */
  function Ones(): Word {
    seq(32, _ => true)
  }

  function And(a: Word, b: Word): (r: Word)
    ensures forall i :: 0 <= i < 32 ==> r[i] == (a[i] && b[i])
  {
    seq(32, i requires 0 <= i < 32 => a[i] && b[i])
  }

  function Zeros(n: nat): (r: seq<bool>)
    ensures |r| == n && forall i :: 0 <= i < n ==> !r[i]
  {
    seq(n, _ => false)
  }

  function ShiftRight(a: Word, n: nat): Word
    requires n <= 32
  {
    Zeros(n) + a[..32 - n]
  }

  function ShiftLeft(a: Word, n: nat): Word
    requires n <= 32
  {
    a[n..] + Zeros(n)
  }

  /** The number a bit string stands for. */
  function Value(bits: seq<bool>): nat {
    if bits == [] then 0 else 2 * Value(bits[..|bits| - 1]) + if bits[|bits| - 1] then 1 else 0
  }

  // ----- ranges -----

  /** (network address, mask), both in host order. */
  datatype Subnet = Subnet(net: Word, mask: Word)

  /** `inet_addr` and `ntohl` of a dotted address, an unknown function of its text. */
  type Inet = Str -> Word

  /** The mask `make_mask_for_range` builds from "/k": all ones, shifted right and left by 32 - k. */
  function MaskOf(keep: nat): Word
    requires 1 <= keep <= 32
  {
    ShiftLeft(ShiftRight(Ones(), 32 - keep), 32 - keep)
  }

  /** `is_match`. */
  predicate Matches(ip: Word, r: Subnet) {
    And(r.net, r.mask) == And(ip, r.mask)
  }

  /**
   * Section 3.1 of RFC 4632: a prefix of length k names a block of 2^(32-k) addresses
   * that starts at a multiple of its size; here the block with the given number.
   */
  predicate InBlock(ip: Word, number: nat, keep: nat)
    requires 1 <= keep <= 32
  {
    number * Power2(32 - keep) <= Value(ip) < (number + 1) * Power2(32 - keep)
  }

  /** One aligned block of 2^(32-k) addresses holds both. */
  ghost predicate ShareBlock(a: Word, b: Word, keep: nat)
    requires 1 <= keep <= 32
  {
    exists number :: InBlock(a, number, keep) && InBlock(b, number, keep)
  }

  lemma {:induction false} MaskBits(keep: nat)
    requires 1 <= keep <= 32
    ensures forall i :: 0 <= i < 32 ==> MaskOf(keep)[i] == (i < keep)
  {
  }

  /** Mask matching compares exactly the first k bits. */
  lemma {:induction false} MatchIsPrefix(ip: Word, net: Word, keep: nat)
    requires 1 <= keep <= 32
    ensures Matches(ip, Subnet(net, MaskOf(keep))) <==> ip[..keep] == net[..keep]
  {
    hide MaskOf;
    MaskBits(keep);
    var mask := MaskOf(keep);
    if And(net, mask) == And(ip, mask) {
      forall i | 0 <= i < keep ensures ip[i] == net[i] {
        assert And(net, mask)[i] == And(ip, mask)[i];
      }
    }
    if ip[..keep] == net[..keep] {
      forall i | 0 <= i < 32 ensures And(net, mask)[i] == And(ip, mask)[i] {
        if i < keep {
          assert ip[i] == ip[..keep][i] == net[..keep][i] == net[i];
        }
      }
    }
  }

  lemma {:induction false} ValueSplit(a: seq<bool>, b: seq<bool>)
    ensures Value(a + b) == Value(a) * Power2(|b|) + Value(b)
    ensures Value(b) < Power2(|b|)
  {
    if b == [] {
      assert a + b == a;
    } else {
      var c := b[..|b| - 1];
      ValueSplit(a, c);
      assert (a + b)[..|a + b| - 1] == a + c;
      TwiceProduct(Value(a), Power2(|c|));
    }
  }

  lemma {:induction false} TwiceProduct(x: nat, y: nat)
    ensures x * (2 * y) == 2 * (x * y)
  {
  }

  lemma {:induction false} ValueInjective(a: seq<bool>, b: seq<bool>)
    requires |a| == |b| && Value(a) == Value(b)
    ensures a == b
  {
    if a != [] {
      var n := |a| - 1;
      ValueInjective(a[..n], b[..n]);
      assert a == a[..n] + [a[n]] && b == b[..n] + [b[n]];
    }
  }

  lemma {:induction false} DivideBlock(q: nat, r: nat, number: nat, size: nat)
    requires r < size
    ensures number * size <= q * size + r < (number + 1) * size <==> number == q
  {
    if number < q {
      assert (number + 1) * size <= q * size;
    } else if q < number {
      assert (q + 1) * size <= number * size;
    }
  }

  /** An address lies in a block exactly when its first k bits spell the block's number. */
  lemma {:induction false} BlockOf(ip: Word, number: nat, keep: nat)
    requires 1 <= keep <= 32
    ensures InBlock(ip, number, keep) <==> number == Value(ip[..keep])
  {
    hide Value, Power2;
    var head, tail := ip[..keep], ip[keep..];
    assert ip == head + tail;
    ValueSplit(head, tail);
    DivideBlock(Value(head), Value(tail), number, Power2(32 - keep));
  }

  /** For prefix lengths 1 to 32, mask matching means: one aligned block of 2^(32-k) addresses holds both addresses. */
  lemma {:induction false} MatchIsBlock(ip: Word, net: Word, keep: nat)
    requires 1 <= keep <= 32
    ensures Matches(ip, Subnet(net, MaskOf(keep))) <==> ShareBlock(ip, net, keep)
  {
    hide Matches, MaskOf, Value, InBlock;
    MatchIsPrefix(ip, net, keep);
    BlockOf(ip, Value(net[..keep]), keep);
    BlockOf(net, Value(net[..keep]), keep);
    forall number | InBlock(ip, number, keep) && InBlock(net, number, keep) ensures ip[..keep] == net[..keep] {
      BlockOf(ip, number, keep);
      BlockOf(net, number, keep);
      ValueInjective(ip[..keep], net[..keep]);
    }
  }

  /**
   * `make_mask_for_range` on "address" or "address/k", with `std::stoi` as an unknown function;
   * None is the thrown `InvalidConfException`. A prefix length of zero shifts by the word size and is not covered.
   */
  method MakeMaskForRange(hay: Str, inet: Inet, stoi: Str -> int) returns (r: Option<Subnet>)
    requires var slash := Find(hay, SLASH); slash.Some? ==> stoi(hay[slash.value + 1..]) != 0
    ensures SLASH !in hay ==> r.Some? && forall ip :: Matches(ip, r.value) <==> ip == inet(hay)
    ensures SLASH in hay ==>
              var i := Find(hay, SLASH).value;
              var keep := stoi(hay[i + 1..]);
              && (r.None? <==> keep < 0 || keep > 32)
              && (r.Some? ==> forall ip :: Matches(ip, r.value) <==> ShareBlock(ip, inet(hay[..i]), keep))
  {
    var slash := Find(hay, SLASH);
    if slash.None? {
      r := Some(Subnet(inet(hay), Ones()));
      forall ip ensures Matches(ip, r.value) <==> ip == inet(hay) {
        OnesKeeps(ip);
        OnesKeeps(inet(hay));
      }
      return;
    }
    var keep := stoi(hay[slash.value + 1..]);
    if keep < 0 || keep > 32 {
      return None;
    }
    var net := inet(hay[..slash.value]);
    r := Some(Subnet(net, MaskOf(keep)));
    hide Matches, ShareBlock, MaskOf;
    forall ip ensures Matches(ip, r.value) <==> ShareBlock(ip, net, keep) {
      MatchIsBlock(ip, net, keep);
    }
  }

  lemma {:induction false} OnesKeeps(ip: Word)
    ensures And(ip, Ones()) == ip
  {
  }

  // ----- the lists -----

  /** Some range of the list matches. */
  predicate Listed(ranges: seq<Subnet>, ip: Word) {
    exists r :: r in ranges && Matches(ip, r)
  }

  datatype Lists = Lists(everywhere: seq<Subnet>, perHost: map<Str, seq<Subnet>>)

  predicate ListedFor(w: Lists, host: Str, ip: Word) {
    Listed(w.everywhere, ip) || (host in w.perHost && Listed(w.perHost[host], ip))
  }

  class GlobalWhiteList {
    var everywhere: seq<Subnet>
    var perHost: map<Str, seq<Subnet>>

    ghost function View(): Lists
      reads this
    {
      Lists(everywhere, perHost)
    }

    constructor ()
      ensures everywhere == [] && perHost == map[]
    {
      everywhere := [];
      perHost := map[];
    }

    method Insert(r: Subnet)
      modifies this
      ensures perHost == old(perHost)
      ensures forall ip :: Listed(everywhere, ip) <==> Listed(old(everywhere), ip) || Matches(ip, r)
      ensures forall h, ip :: ListedFor(View(), h, ip) <==> old(ListedFor(View(), h, ip)) || Matches(ip, r)
    {
      everywhere := everywhere + [r];
      forall ip ensures Listed(everywhere, ip) <==> Listed(old(everywhere), ip) || Matches(ip, r) {
        assert forall x :: x in everywhere <==> x in old(everywhere) || x == r;
      }
    }

    method InsertFor(host: Str, r: Subnet)
      modifies this
      ensures everywhere == old(everywhere)
      ensures forall h, ip :: ListedFor(View(), h, ip) <==> old(ListedFor(View(), h, ip)) || (h == host && Matches(ip, r))
    {
      ghost var before := View();
      var ranges := if host in perHost then perHost[host] else [];
      perHost := perHost[host := ranges + [r]];
      forall h, ip ensures ListedFor(View(), h, ip) <==> ListedFor(before, h, ip) || (h == host && Matches(ip, r)) {
        assert forall x :: x in ranges + [r] <==> x in ranges || x == r;
      }
    }

    method IsWhiteListed(ip: Word) returns (hit: Option<Subnet>)
      ensures hit.Some? <==> Listed(everywhere, ip)
      ensures hit.Some? ==> hit.value in everywhere && Matches(ip, hit.value)
    {
      hit := FirstMatch(everywhere, ip);
    }

    method IsWhiteListedFor(host: Str, ip: Word) returns (hit: Option<Subnet>)
      ensures hit.Some? <==> ListedFor(View(), host, ip)
      ensures hit.Some? ==> Matches(ip, hit.value)
    {
      hit := FirstMatch(everywhere, ip);
      if hit.Some? || host !in perHost {
        return;
      }
      hit := FirstMatch(perHost[host], ip);
    }
  }

  method FirstMatch(ranges: seq<Subnet>, ip: Word) returns (hit: Option<Subnet>)
    ensures hit.Some? <==> Listed(ranges, ip)
    ensures hit.Some? ==> hit.value in ranges && Matches(ip, hit.value)
  {
    for k := 0 to |ranges|
      invariant forall i :: 0 <= i < k ==> !Matches(ip, ranges[i])
    {
      if Matches(ip, ranges[k]) {
        return Some(ranges[k]);
      }
    }
    return None;
  }
}
