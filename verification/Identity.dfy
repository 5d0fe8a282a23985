/** The caller's part of the cache key. */
module Identity {
  import opened Json

  const AUTHORIZATION: seq<byte> := [0x61, 0x75, 0x74, 0x68, 0x6F, 0x72, 0x69, 0x7A, 0x61, 0x74, 0x69, 0x6F, 0x6E]
  const COOKIE: seq<byte> := [0x63, 0x6F, 0x6F, 0x6B, 0x69, 0x65]
  const EQUALS: byte := 0x3D
  const LF: byte := 0x0A

  /** Who is asking: a credential the proxy checked, or the headers it passes through (the first
      value of each of the two credential-bearing fields). */
  datatype Caller =
    | ByCredential(id: seq<byte>)
    | ByHeaders(authorization: Option<seq<byte>>, cookie: Option<seq<byte>>)

  function Field(name: seq<byte>, value: Option<seq<byte>>): seq<byte> {
    if value.None? then [] else name + [EQUALS] + value.value + [LF]
  }

  function Encode(c: Caller): seq<byte> {
    match c
    case ByCredential(id) => id
    case ByHeaders(a, k) => Field(AUTHORIZATION, a) + Field(COOKIE, k)
  }

  /** The buffer loop of the source over the two header names. */
  method CacheIdentity(c: Caller) returns (identity: seq<byte>)
    ensures identity == Encode(c)
  {
    if c.ByCredential? {
      return c.id;
    }
    identity := [];
    var fields := [(AUTHORIZATION, c.authorization), (COOKIE, c.cookie)];
    for i := 0 to 2
      invariant i == 0 ==> identity == []
      invariant i == 1 ==> identity == Field(AUTHORIZATION, c.authorization)
      invariant i == 2 ==> identity == Encode(c)
    {
      var (name, value) := fields[i];
      if value.Some? {
        ghost var before := identity;
        identity := identity + name;
        identity := identity + [EQUALS];
        identity := identity + value.value;
        identity := identity + [LF];
        assert identity == before + Field(name, value);
      }
    }
  }

  predicate Spells(bytes: seq<byte>, text: string) {
    |bytes| == |text| && forall i :: 0 <= i < |bytes| ==> bytes[i] == text[i] as int
  }

  lemma HeaderNames()
    ensures Spells(AUTHORIZATION, "authorization") && Spells(COOKIE, "cookie") && Spells([EQUALS], "=") && Spells([LF], "\n")
  {
    assert "authorization" == ['a', 'u', 't', 'h', 'o', 'r', 'i', 'z', 'a', 't', 'i', 'o', 'n'];
    assert "cookie" == ['c', 'o', 'o', 'k', 'i', 'e'];
  }

  predicate NoLf(s: seq<byte>) {
    forall i :: 0 <= i < |s| ==> s[i] != LF
  }

  /** Credential ids are random (version 4) UUIDs; field values contain no line feed (section 5.5 of
      RFC 9110). */
  predicate WellFormed(c: Caller) {
    match c
    case ByCredential(id) => |id| == 16 && id[6] / 16 == 4
    case ByHeaders(a, k) => (a.Some? ==> NoLf(a.value)) && (k.Some? ==> NoLf(k.value))
  }

  lemma SplitAtLf(v: seq<byte>, r: seq<byte>, v': seq<byte>, r': seq<byte>)
    requires NoLf(v) && NoLf(v') && v + [LF] + r == v' + [LF] + r'
    ensures v == v' && r == r'
  {
    var s, s' := v + [LF] + r, v' + [LF] + r';
    assert s[|v|] == LF && s'[|v'|] == LF;
    assert forall i :: 0 <= i < |v| ==> s[i] == v[i];
    assert forall i :: 0 <= i < |v'| ==> s'[i] == v'[i];
    assert v == s[..|v|] && v' == s'[..|v'|];
    assert r == s[|v| + 1..] && r' == s'[|v'| + 1..];
  }

  /** A field encoding followed by anything determines the value and what follows. */
  lemma FieldSplits(name: seq<byte>, v: seq<byte>, r: seq<byte>, v': seq<byte>, r': seq<byte>)
    requires NoLf(v) && NoLf(v')
    requires Field(name, Some(v)) + r == Field(name, Some(v')) + r'
    ensures v == v' && r == r'
  {
    var n := |name| + 1;
    var s, s' := Field(name, Some(v)) + r, Field(name, Some(v')) + r';
    assert s[n..] == v + [LF] + r;
    assert s'[n..] == v' + [LF] + r';
    SplitAtLf(v, r, v', r');
  }

  lemma SameHeaders(a: Option<seq<byte>>, k: Option<seq<byte>>, a': Option<seq<byte>>, k': Option<seq<byte>>)
    requires WellFormed(ByHeaders(a, k)) && WellFormed(ByHeaders(a', k'))
    requires Encode(ByHeaders(a, k)) == Encode(ByHeaders(a', k'))
    ensures a == a' && k == k'
  {
    var s, s' := Encode(ByHeaders(a, k)), Encode(ByHeaders(a', k'));
    if a.Some? { assert s[0] == 0x61; } else if k.Some? { assert s[0] == 0x63; } else { assert s == []; }
    if a'.Some? { assert s'[0] == 0x61; } else if k'.Some? { assert s'[0] == 0x63; } else { assert s' == []; }
    if a.Some? {
      FieldSplits(AUTHORIZATION, a.value, Field(COOKIE, k), a'.value, Field(COOKIE, k'));
    } else {
      assert s == Field(COOKIE, k) && s' == Field(COOKIE, k');
    }
    if k.Some? { FieldSplits(COOKIE, k.value, [], k'.value, []); }
  }

  lemma HeadersNeverSpellId(a: Option<seq<byte>>, k: Option<seq<byte>>)
    ensures var s := Encode(ByHeaders(a, k)); |s| == 16 ==> s[6] / 16 != 4
  {
    var s := Encode(ByHeaders(a, k));
    if a.Some? { assert s[6] == 0x69; } else if k.Some? { assert s[6] == EQUALS; }
  }

  /** Callers with the same key part are the same caller, whichever way each was identified. */
  lemma EncodeInjective(c: Caller, c': Caller)
    requires WellFormed(c) && WellFormed(c') && Encode(c) == Encode(c')
    ensures c == c'
  {
    if c.ByHeaders? && c'.ByHeaders? {
      SameHeaders(c.authorization, c.cookie, c'.authorization, c'.cookie);
    } else if c.ByHeaders? {
      HeadersNeverSpellId(c.authorization, c.cookie);
    } else if c'.ByHeaders? {
      HeadersNeverSpellId(c'.authorization, c'.cookie);
    }
  }

  /** The 16 bytes that some LF-free header values encode to: `cookie=` with 8 more, or `authorization=`
      with one more, before the line feed. */
  predicate SpellsHeader(id: seq<byte>)
    requires |id| == 16
  {
    || (id[..7] == COOKIE + [EQUALS] && NoLf(id[7..15]) && id[15] == LF)
    || (id[..14] == AUTHORIZATION + [EQUALS] && id[14] != LF && id[15] == LF)
  }

  lemma CookieSpells(v: seq<byte>)
    requires NoLf(v) && |Field(COOKIE, Some(v))| == 16
    ensures SpellsHeader(Field(COOKIE, Some(v)))
  {
    var id := Field(COOKIE, Some(v));
    assert id[..7] == COOKIE + [EQUALS];
    assert id[7..15] == v;
  }

  lemma AuthorizationSpells(v: seq<byte>)
    requires NoLf(v) && |Field(AUTHORIZATION, Some(v))| == 16
    ensures SpellsHeader(Field(AUTHORIZATION, Some(v)))
  {
    var id := Field(AUTHORIZATION, Some(v));
    assert id[..14] == AUTHORIZATION + [EQUALS];
    assert id[14] == v[0];
  }

  lemma HeadersSpell(a: Option<seq<byte>>, k: Option<seq<byte>>)
    requires WellFormed(ByHeaders(a, k)) && |Encode(ByHeaders(a, k))| == 16
    ensures SpellsHeader(Encode(ByHeaders(a, k)))
  {
    if a.Some? {
      assert k.None?;
      assert Encode(ByHeaders(a, k)) == Field(AUTHORIZATION, a);
      AuthorizationSpells(a.value);
    } else {
      assert Encode(ByHeaders(a, k)) == Field(COOKIE, k);
      CookieSpells(k.value);
    }
  }

  lemma SpelledByHeaders(id: seq<byte>) returns (a: Option<seq<byte>>, k: Option<seq<byte>>)
    requires |id| == 16 && SpellsHeader(id)
    ensures WellFormed(ByHeaders(a, k)) && Encode(ByHeaders(a, k)) == id
  {
    if id[..7] == COOKIE + [EQUALS] {
      a, k := None, Some(id[7..15]);
      assert id == id[..7] + id[7..15] + [id[15]];
    } else {
      a, k := Some([id[14]]), None;
      assert id == id[..14] + [id[14]] + [id[15]];
    }
  }

  /** The exact condition: a 16-byte id coincides with the identity of some header pair if and only if it
      spells out one of the two header fields. */
  lemma CollidesIff(id: seq<byte>)
    requires |id| == 16
    ensures (exists a, k :: WellFormed(ByHeaders(a, k)) && Encode(ByHeaders(a, k)) == Encode(ByCredential(id)))
            <==> SpellsHeader(id)
  {
    if SpellsHeader(id) {
      var a, k := SpelledByHeaders(id);
    }
    forall a, k | WellFormed(ByHeaders(a, k)) && Encode(ByHeaders(a, k)) == Encode(ByCredential(id))
      ensures SpellsHeader(id)
    {
      HeadersSpell(a, k);
    }
  }
}
