/** What makes two observations the same transfer (app/domain/payments/fingerprint.py):
    the text that is hashed into the unique key of a claim. */
module Fingerprint {
  import opened AmountText
  import opened Verification

  predicate IsHex(c: char) {
    '0' <= c <= '9' || 'a' <= c <= 'f'
  }

  predicate AllHex(s: string) {
    forall i :: 0 <= i < |s| ==> IsHex(s[i])
  }

  /** Hashes are compared in lower case and without their prefix; anything that is not
      hexadecimal keeps its case. */
  function NormalizeTxid(txid: string): string {
    var value := Strip(txid);
    var bare := if |value| >= 2 && value[0] == '0' && value[1] in "xX" then value[2..] else value;
    if AllHex(Lower(bare)) then Lower(bare) else bare
  }

  /** Provider, network, transaction and index, joined by bars. */
  function Identity(provider: string, network: string, externalId: string, logIndex: nat): string {
    provider + ("|" + (network + ("|" + (NormalizeTxid(externalId) + ("|" + NatText(logIndex))))))
  }

  lemma StripsNothing(s: string)
    requires s != "" ==> s[0] !in " \t\n\r" && s[|s| - 1] !in " \t\n\r"
    ensures Strip(s) == s
  {
  }

  /** A hash is the same hash in any case, with its prefix or without. */
  lemma HashInAnyForm(hash: string)
    requires AllHex(Lower(hash))
    ensures NormalizeTxid(hash) == Lower(hash) && NormalizeTxid("0x" + hash) == Lower(hash)
  {
    forall i | 0 <= i < |hash|
      ensures hash[i] !in " \t\n\rxX"
    {
      assert IsHex(Lower(hash)[i]);
    }
    StripsNothing(hash);
    var prefixed := "0x" + hash;
    assert prefixed[|prefixed| - 1] == if hash == "" then 'x' else hash[|hash| - 1];
    StripsNothing(prefixed);
    assert prefixed[2..] == hash;
  }

  predicate HexInAnyCase(s: string) {
    forall i :: 0 <= i < |s| ==> '0' <= s[i] <= '9' || 'a' <= s[i] <= 'f' || 'A' <= s[i] <= 'F'
  }

  /** An id without the space around it and without the prefix of a hash. */
  predicate IsPlain(id: string) {
    Bare(id) && (|id| >= 2 && id[0] == '0' ==> id[1] !in "xX")
  }

  /** Ids are told apart to the letter unless they are hexadecimal, which is compared
      without regard to case. */
  lemma IdsAreToldApart(x: string, y: string)
    requires IsPlain(x) && IsPlain(y)
    ensures NormalizeTxid(x) == NormalizeTxid(y) <==> x == y || (HexInAnyCase(x) && SameIgnoringCase(x, y))
  {
    StripsNothing(x);
    StripsNothing(y);
    HexWhenLowered(x);
    HexWhenLowered(y);
    FoldingIgnoresCase(x, y);
    if !HexInAnyCase(x) && HexInAnyCase(y) {
      LoweredIsHex(y);
    }
    if HexInAnyCase(x) && !HexInAnyCase(y) {
      LoweredIsHex(x);
    }
  }

  /** The prefix of a hash, in either case, makes no difference. */
  lemma PrefixIsDropped(x: string, mark: char)
    requires IsPlain(x) && x != "" && mark in "xX"
    ensures NormalizeTxid(("0" + [mark]) + x) == NormalizeTxid(x)
  {
    var prefixed := ("0" + [mark]) + x;
    assert prefixed[|prefixed| - 1] == x[|x| - 1];
    StripsNothing(prefixed);
    StripsNothing(x);
    assert prefixed[2..] == x;
  }

  lemma HexWhenLowered(s: string)
    ensures AllHex(Lower(s)) <==> HexInAnyCase(s)
  {
    forall i | 0 <= i < |s|
      ensures IsHex(Lower(s)[i]) <==> '0' <= s[i] <= '9' || 'a' <= s[i] <= 'f' || 'A' <= s[i] <= 'F'
    {
    }
    if HexInAnyCase(s) {
      assert AllHex(Lower(s));
    }
    if AllHex(Lower(s)) {
      forall i | 0 <= i < |s|
        ensures '0' <= s[i] <= '9' || 'a' <= s[i] <= 'f' || 'A' <= s[i] <= 'F'
      {
        assert IsHex(Lower(s)[i]);
      }
    }
  }

  lemma LoweredIsHex(s: string)
    requires HexInAnyCase(s)
    ensures HexInAnyCase(Lower(s))
  {
    HexWhenLowered(s);
    forall i | 0 <= i < |s|
      ensures '0' <= Lower(s)[i] <= '9' || 'a' <= Lower(s)[i] <= 'f' || 'A' <= Lower(s)[i] <= 'F'
    {
      assert IsHex(Lower(s)[i]);
    }
  }

  /** A text without bars can be read off before the first bar. */
  lemma SplitAtFirstBar(a: string, rest: string, b: string, others: string)
    requires '|' !in a && '|' !in b && a + ("|" + rest) == b + ("|" + others)
    ensures a == b && rest == others
  {
    var s, t := a + ("|" + rest), b + ("|" + others);
    assert s[|a|] == '|' && t[|b|] == '|';
    assert a == s[..|a|] && b == t[..|b|] && rest == s[|a| + 1..] && others == t[|b| + 1..];
  }

  lemma SplitAtLastBar(a: string, rest: string, b: string, others: string)
    requires '|' !in rest && '|' !in others && a + ("|" + rest) == b + ("|" + others)
    ensures a == b && rest == others
  {
    var s, t := a + ("|" + rest), b + ("|" + others);
    assert s[|a|] == '|' && t[|b|] == '|';
    assert a == s[..|a|] && b == t[..|b|] && rest == s[|a| + 1..] && others == t[|b| + 1..];
  }

  lemma NatTextHasNoBar(n: nat)
    ensures '|' !in NatText(n)
  {
    assert AllDigits(NatText(n));
  }

  /** Two transfers have the same text exactly when provider, network, normalised id and
      index all agree, whatever characters the id contains. */
  lemma IdentityIsExact(p: string, n: string, x: string, i: nat, q: string, m: string, y: string, j: nat)
    requires '|' !in p && '|' !in n && '|' !in q && '|' !in m
    ensures Identity(p, n, x, i) == Identity(q, m, y, j)
       <==> p == q && n == m && NormalizeTxid(x) == NormalizeTxid(y) && i == j
  {
    if Identity(p, n, x, i) == Identity(q, m, y, j) {
      var a, b := NormalizeTxid(x) + ("|" + NatText(i)), NormalizeTxid(y) + ("|" + NatText(j));
      SplitAtFirstBar(p, n + ("|" + a), q, m + ("|" + b));
      SplitAtFirstBar(n, a, m, b);
      NatTextHasNoBar(i);
      NatTextHasNoBar(j);
      SplitAtLastBar(NormalizeTxid(x), NatText(i), NormalizeTxid(y), NatText(j));
      ReadNatText(i);
      ReadNatText(j);
    }
  }

  // ------------------------------------------------------------ addresses

  predicate Bare(s: string) {
    s != "" ==> s[0] !in " \t\n\r" && s[|s| - 1] !in " \t\n\r"
  }

  lemma {:induction false} StripLeavesNoSpace(s: string)
    ensures Bare(Strip(s))
    decreases |s|
  {
    if s != "" && s[0] in " \t\n\r" {
      StripLeavesNoSpace(s[1..]);
    } else if s != "" && s[|s| - 1] in " \t\n\r" {
      StripLeavesNoSpace(s[..|s| - 1]);
    }
  }

  lemma FoldedStaysBare(s: string)
    requires Bare(s)
    ensures Strip(s) == s && Strip(Lower(s)) == Lower(s) && Strip(UrlSafe(s)) == UrlSafe(s)
    ensures Lower(Lower(s)) == Lower(s) && UrlSafe(UrlSafe(s)) == UrlSafe(s)
    ensures "0x" <= s ==> "0x" <= Lower(s)
    ensures "0x" <= UrlSafe(s) ==> "0x" <= s
  {
    StripsNothing(s);
    StripsNothing(Lower(s));
    StripsNothing(UrlSafe(s));
  }

  /** A normalised address is already normalised: comparing a stored form with a fresh one
      is comparing like with like. */
  lemma NormalizingTwice(address: string, network: Network)
    ensures NormalizeAddress(NormalizeAddress(address, network), network) == NormalizeAddress(address, network)
  {
    StripLeavesNoSpace(address);
    FoldedStaysBare(Strip(address));
  }

  predicate IsHexChain(network: Network) {
    network in {Bep20, Erc20, Avaxc, Arbitrum, Polygon}
  }

  /** The same letter, once small and once capital. */
  predicate CaseTwins(c: char, d: char) {
    ('A' <= c <= 'Z' && d as int == c as int + 32) || ('A' <= d <= 'Z' && c as int == d as int + 32)
  }

  predicate SameIgnoringCase(a: string, b: string) {
    |a| == |b| && forall i :: 0 <= i < |a| ==> a[i] == b[i] || CaseTwins(a[i], b[i])
  }

  /** The same account in the standard and in the url-safe base64 alphabet. */
  predicate SameInTon(a: string, b: string) {
    |a| == |b| && forall i :: 0 <= i < |a| ==> a[i] == b[i] || {a[i], b[i]} == {'+', '-'} || {a[i], b[i]} == {'/', '_'}
  }

  predicate Begins(s: string, prefix: string) {
    |prefix| <= |s| && SameIgnoringCase(s[..|prefix|], prefix)
  }

  predicate IsBech32(s: string) {
    Begins(s, "bc1") || Begins(s, "ltc1") || Begins(s, "tb1")
  }

  /** When two addresses, without the space around them, are one and the same on a network. */
  predicate SameAddress(a: string, b: string, network: Network) {
    if IsHexChain(network) || ("0x" <= a && "0x" <= b) then SameIgnoringCase(a, b)
    else if "0x" <= a || "0x" <= b then false
    else if network == Ton then SameInTon(a, b)
    else if network in {Btc, Ltc} && IsBech32(a) && IsBech32(b) then SameIgnoringCase(a, b)
    else a == b
  }

  lemma SameLetter(c: char, d: char)
    ensures LowerChar(c) == LowerChar(d) <==> c == d || CaseTwins(c, d)
    ensures UpperChar(c) == UpperChar(d) <==> c == d || CaseTwins(c, d)
  {
  }

  /** Folding to small letters, or to capital ones, makes equal exactly what differs in case only. */
  lemma FoldingIgnoresCase(a: string, b: string)
    ensures Lower(a) == Lower(b) <==> SameIgnoringCase(a, b)
    ensures Upper(a) == Upper(b) <==> SameIgnoringCase(a, b)
  {
    forall i | 0 <= i < |a| && |a| == |b|
      ensures Lower(a)[i] == Lower(b)[i] <==> a[i] == b[i] || CaseTwins(a[i], b[i])
      ensures Upper(a)[i] == Upper(b)[i] <==> a[i] == b[i] || CaseTwins(a[i], b[i])
    {
      SameLetter(a[i], b[i]);
    }
    if SameIgnoringCase(a, b) {
      assert Lower(a) == Lower(b) && Upper(a) == Upper(b);
    }
  }

  lemma UrlSafeIsSameInTon(a: string, b: string)
    ensures UrlSafe(a) == UrlSafe(b) <==> SameInTon(a, b)
  {
    forall i | 0 <= i < |a| && |a| == |b|
      ensures UrlSafe(a)[i] == UrlSafe(b)[i]
         <==> a[i] == b[i] || {a[i], b[i]} == {'+', '-'} || {a[i], b[i]} == {'/', '_'}
    {
      SwappedInTon(a[i], b[i]);
    }
    if SameInTon(a, b) {
      assert UrlSafe(a) == UrlSafe(b);
    }
  }

  lemma SwappedInTon(c: char, d: char)
    ensures UrlSafeChar(c) == UrlSafeChar(d) <==> c == d || {c, d} == {'+', '-'} || {c, d} == {'/', '_'}
  {
    if c != d && UrlSafeChar(c) == UrlSafeChar(d) {
      assert (c == '+' && d == '-') || (c == '-' && d == '+') || (c == '/' && d == '_') || (c == '_' && d == '/');
    }
    if c != d && ({c, d} == {'+', '-'} || {c, d} == {'/', '_'}) {
      assert c in {c, d} && d in {c, d};
    }
  }

  lemma BeginsWhenLowered(s: string, prefix: string)
    requires Lower(prefix) == prefix
    ensures prefix <= Lower(s) <==> Begins(s, prefix)
  {
    if |prefix| <= |s| {
      assert Lower(s[..|prefix|]) == Lower(s)[..|prefix|];
      FoldingIgnoresCase(s[..|prefix|], prefix);
    }
  }

  lemma Bech32WhenLowered(s: string)
    ensures IsBech32(s) <==> "bc1" <= Lower(s) || "ltc1" <= Lower(s) || "tb1" <= Lower(s)
  {
    BeginsWhenLowered(s, "bc1");
    BeginsWhenLowered(s, "ltc1");
    BeginsWhenLowered(s, "tb1");
  }

  /** The form of a text without space around it. */
  function Folded(s: string, network: Network): string {
    if IsHexChain(network) || "0x" <= s then Lower(s)
    else if network == Ton then UrlSafe(s)
    else if network in {Btc, Ltc} && IsBech32(s) then Lower(s)
    else s
  }

  /** Normalising tells addresses apart exactly so: case is folded on hexadecimal chains,
      in prefixed addresses and in Bech32 ones, TON has two alphabets, and everything else
      must agree to the letter. */
  lemma NormalizingTellsAddressesApart(a: string, b: string, network: Network)
    ensures NormalizeAddress(a, network) == NormalizeAddress(b, network) <==> SameAddress(Strip(a), Strip(b), network)
  {
    Bech32WhenLowered(Strip(a));
    Bech32WhenLowered(Strip(b));
    assert NormalizeAddress(a, network) == Folded(Strip(a), network);
    assert NormalizeAddress(b, network) == Folded(Strip(b), network);
    FoldingTellsApart(Strip(a), Strip(b), network);
  }

  lemma FoldingTellsApart(a: string, b: string, network: Network)
    ensures Folded(a, network) == Folded(b, network) <==> SameAddress(a, b, network)
  {
    FoldingIgnoresCase(a, b);
    UrlSafeIsSameInTon(a, b);
    if !IsHexChain(network) {
      if "0x" <= a && !("0x" <= b) {
        PrefixStays(a, b, network);
      } else if "0x" <= b && !("0x" <= a) {
        PrefixStays(b, a, network);
      } else if network in {Btc, Ltc} {
        BechStays(a, b);
        BechStays(b, a);
      }
    }
  }

  lemma PrefixStays(a: string, b: string, network: Network)
    requires "0x" <= a && !("0x" <= b) && !IsHexChain(network)
    ensures Folded(a, network) != Folded(b, network)
  {
    assert "0x" <= Lower(a);
    Bech32WhenLowered(b);
    if network == Ton {
      assert !("0x" <= UrlSafe(b));
    } else if network in {Btc, Ltc} && IsBech32(b) {
      assert Lower(b)[0] != '0';
    }
  }

  lemma BechStays(a: string, b: string)
    ensures IsBech32(a) && Lower(a) == b ==> IsBech32(b)
  {
    Bech32WhenLowered(a);
    Bech32WhenLowered(b);
    assert Lower(Lower(a)) == Lower(a);
  }
}
