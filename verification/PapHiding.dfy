/** Hiding a PAP password in a RADIUS request (section 5.2 of RFC 2865). The digest is a parameter: any function with a
    16-byte result. */
module PapHiding {
  type Octets = seq<bv8>

  const BLOCK := 16

  type Block = b: Octets | |b| == BLOCK witness seq(BLOCK, _ => 0)

  type Digest = Octets -> Block

  function Xor(a: Block, b: Block): Block {
    seq(BLOCK, i requires 0 <= i < BLOCK => a[i] ^ b[i])
  }

  /** The password filled up with zeros to whole blocks; the empty one stays empty. */
  function Pad(pass: Octets): (p: Octets)
    ensures |p| % BLOCK == 0 && |pass| <= |p| < |pass| + BLOCK
    ensures p[..|pass|] == pass && forall i :: |pass| <= i < |p| ==> p[i] == 0
  {
    pass + seq((BLOCK - |pass| % BLOCK) % BLOCK, _ => 0)
  }

  /** Each block is combined with the digest of the secret and the block before it. */
  function HideBlocks(md5: Digest, secret: Octets, key: Block, p: Octets): Octets
    requires |p| % BLOCK == 0
    decreases |p|
  {
    if p == [] then []
    else
      var c: Octets := Xor(key, p[..BLOCK]);
      c + HideBlocks(md5, secret, md5(secret + c), p[BLOCK..])
  }

  function Hide(md5: Digest, secret: Octets, auth: Block, pass: Octets): Octets {
    HideBlocks(md5, secret, md5(secret + auth), Pad(pass))
  }

  /** What the RADIUS server does to read it. */
  function UnhideBlocks(md5: Digest, secret: Octets, key: Block, h: Octets): Octets
    requires |h| % BLOCK == 0
    decreases |h|
  {
    if h == [] then [] else Xor(key, h[..BLOCK]) + UnhideBlocks(md5, secret, md5(secret + h[..BLOCK]), h[BLOCK..])
  }

  function Unhide(md5: Digest, secret: Octets, auth: Block, h: Octets): Octets
    requires |h| % BLOCK == 0
  {
    UnhideBlocks(md5, secret, md5(secret + auth), h)
  }

  lemma XorTwice(a: Block, b: Block)
    ensures Xor(a, Xor(a, b)) == b
  {
    forall i | 0 <= i < BLOCK ensures a[i] ^ (a[i] ^ b[i]) == b[i] {}
  }

  lemma {:induction false} HiddenSize(md5: Digest, secret: Octets, key: Block, p: Octets)
    requires |p| % BLOCK == 0
    ensures |HideBlocks(md5, secret, key, p)| == |p|
    decreases |p|
  {
    if p == [] {
    } else {
      HiddenSize(md5, secret, md5(secret + Xor(key, p[..BLOCK])), p[BLOCK..]);
    }
  }

  lemma {:induction false} BlocksRoundTrip(md5: Digest, secret: Octets, key: Block, p: Octets)
    requires |p| % BLOCK == 0
    ensures |HideBlocks(md5, secret, key, p)| == |p|
    ensures UnhideBlocks(md5, secret, key, HideBlocks(md5, secret, key, p)) == p
    decreases |p|
  {
    HiddenSize(md5, secret, key, p);
    if p == [] {
    } else {
      var c: Octets := Xor(key, p[..BLOCK]);
      var rest: Octets := HideBlocks(md5, secret, md5(secret + c), p[BLOCK..]);
      BlocksRoundTrip(md5, secret, md5(secret + c), p[BLOCK..]);
      assert (c + rest)[..BLOCK] == c && (c + rest)[BLOCK..] == rest;
      XorTwice(key, p[..BLOCK]);
    }
  }

  /** Whatever the password, the secret, the authenticator and the digest: the server gets the padded password. */
  lemma HideRoundTrip(md5: Digest, secret: Octets, auth: Block, pass: Octets)
    ensures |Hide(md5, secret, auth, pass)| == |Pad(pass)|
    ensures Unhide(md5, secret, auth, Hide(md5, secret, auth, pass)) == Pad(pass)
  {
    BlocksRoundTrip(md5, secret, md5(secret + auth), Pad(pass));
  }

  function StripZeros(p: Octets): Octets {
    if p == [] || p[|p| - 1] != 0 then p else StripZeros(p[..|p| - 1])
  }

  /** Dropping the zeros at the end gives the password back exactly when it does not end in a zero itself. */
  lemma {:induction false} PaddingIsReversibleIff(pass: Octets)
    ensures StripZeros(Pad(pass)) == pass <==> pass == [] || pass[|pass| - 1] != 0
  {
    StripTail(pass, |Pad(pass)| - |pass|);
    assert Pad(pass) == pass + seq(|Pad(pass)| - |pass|, _ => 0);
    StripEnd(pass);
  }

  lemma {:induction false} StripTail(p: Octets, n: nat)
    ensures StripZeros(p + seq(n, _ => 0)) == StripZeros(p)
  {
    if n == 0 {
      assert p + seq(n, _ => 0) == p;
    } else {
      var q := p + seq(n, _ => 0);
      assert q[..|q| - 1] == p + seq(n - 1, _ => 0);
      StripTail(p, n - 1);
    }
  }

  lemma {:induction false} StripEnd(p: Octets)
    ensures |StripZeros(p)| <= |p|
    ensures StripZeros(p) == p <==> p == [] || p[|p| - 1] != 0
  {
    if p == [] || p[|p| - 1] != 0 {
    } else {
      StripEnd(p[..|p| - 1]);
    }
  }

  /** Block `i` of a list of blocks. */
  function At(s: Octets, i: nat): Block
    requires BLOCK * (i + 1) <= |s|
  {
    s[BLOCK * i..BLOCK * (i + 1)]
  }

  lemma {:induction false} BlockEquation(md5: Digest, secret: Octets, key: Block, p: Octets, i: nat)
    requires |p| % BLOCK == 0 && BLOCK * (i + 1) <= |p|
    ensures |HideBlocks(md5, secret, key, p)| == |p|
    ensures var h := HideBlocks(md5, secret, key, p);
            At(h, i) == Xor(if i == 0 then key else md5(secret + At(h, i - 1)), At(p, i))
    decreases |p|
  {
    HiddenSize(md5, secret, key, p);
    var h: Octets, c: Octets := HideBlocks(md5, secret, key, p), Xor(key, p[..BLOCK]);
    if i == 0 {
    } else {
      var tail: Octets := HideBlocks(md5, secret, md5(secret + c), p[BLOCK..]);
      BlockEquation(md5, secret, md5(secret + c), p[BLOCK..], i - 1);
      assert h == c + tail;
      assert At(p[BLOCK..], i - 1) == At(p, i) && At(tail, i - 1) == At(h, i);
      if i > 1 { assert At(tail, i - 2) == At(h, i - 1); } else { assert At(h, 0) == c; }
    }
  }

  /** The RFC's equations: c(1) = p(1) xor MD5(S + RA), c(i) = p(i) xor MD5(S + c(i-1)). */
  lemma HiddenBlocks(md5: Digest, secret: Octets, auth: Block, pass: Octets, i: nat)
    requires BLOCK * (i + 1) <= |Pad(pass)|
    ensures |Hide(md5, secret, auth, pass)| == |Pad(pass)|
    ensures var h := Hide(md5, secret, auth, pass);
            At(h, i) == Xor(md5(secret + if i == 0 then auth else At(h, i - 1)), At(Pad(pass), i))
  {
    BlockEquation(md5, secret, md5(secret + auth), Pad(pass), i);
  }

  /** What is hidden fits one attribute, which has room for 253 bytes, exactly when the password has at most 240. */
  lemma FitsAnAttributeIff(md5: Digest, secret: Octets, auth: Block, pass: Octets)
    ensures |Hide(md5, secret, auth, pass)| <= 253 <==> |pass| <= 240
  {
    HideRoundTrip(md5, secret, auth, pass);
  }

  // ---- The code's form ---------------------------------------------------------------------------------------------

  method XorBlock(b1: Block, pass: Octets, i: nat) returns (c1: array<bv8>)
    requires BLOCK * (i + 1) <= |pass|
    ensures fresh(c1) && c1[..] == Xor(b1, At(pass, i))
  {
    c1 := new bv8[BLOCK];
    var j := 0;
    while j < BLOCK
      invariant 0 <= j <= BLOCK
      invariant forall k :: 0 <= k < j ==> c1[k] == b1[k] ^ pass[BLOCK * i + k]
    {
      c1[j] := b1[j] ^ pass[BLOCK * i + j];
      j := j + 1;
    }
  }

  /** The first loop: zeros up to the next whole block. */
  method FillUp(password: Octets) returns (pass: Octets)
    ensures pass == Pad(password)
  {
    pass := password;
    var nlen := |pass|;
    if nlen % BLOCK != 0 {
      nlen := nlen + BLOCK - |pass| % BLOCK;
    }
    while |pass| != nlen
      invariant |pass| <= nlen && pass == password + seq(|pass| - |password|, _ => 0)
      decreases nlen - |pass|
    {
      pass := pass + [0];
    }
  }

  /** One block of the second loop, in the hidden password. */
  lemma NextBlock(md5: Digest, secret: Octets, b1: Block, pass: Octets, i: nat, c: Octets, done: Octets)
    requires |pass| % BLOCK == 0 && BLOCK * (i + 1) <= |pass| && c == Xor(b1, At(pass, i))
    ensures done + HideBlocks(md5, secret, b1, pass[BLOCK * i..]) ==
            (done + c) + HideBlocks(md5, secret, md5(secret + c), pass[BLOCK * (i + 1)..])
  {
    var rest := pass[BLOCK * i..];
    assert rest[..BLOCK] == At(pass, i) && rest[BLOCK..] == pass[BLOCK * (i + 1)..];
  }

  method PasswordPapProcess(md5: Digest, auth: Block, secret: Octets, password: Octets) returns (result: Octets)
    ensures result == Hide(md5, secret, auth, password)
  {
    var pass := FillUp(password);
    var b1: Block := md5(secret + auth);
    result := [];
    var i := 0;
    assert pass[0..] == pass;
    while i < |pass| / BLOCK
      invariant 0 <= i <= |pass| / BLOCK
      invariant Hide(md5, secret, auth, password) == result + HideBlocks(md5, secret, b1, pass[BLOCK * i..])
    {
      var c1 := XorBlock(b1, pass, i);
      NextBlock(md5, secret, b1, pass, i, c1[..], result);
      result := result + c1[..];
      b1 := md5(secret + c1[..]);
      i := i + 1;
    }
    assert pass[BLOCK * i..] == [];
  }
}
