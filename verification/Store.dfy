/**
 * The token factory's one flat key-value store: key layout, prefix stores and iteration, and
 * the three independent tables it holds.
 */
module Store {
  import opened Common
  import opened Order
  import opened Messages
  import opened Denoms

  /** "denoms" */
  const DENOMS: Bytes := [0x64, 0x65, 0x6E, 0x6F, 0x6D, 0x73]

  /** "creator" */
  const CREATOR: Bytes := [0x63, 0x72, 0x65, 0x61, 0x74, 0x6F, 0x72]

  /** "authoritymetadata" */
  const AUTHORITY: Bytes := [
    0x61, 0x75, 0x74, 0x68, 0x6F, 0x72, 0x69, 0x74, 0x79, 0x6D, 0x65, 0x74, 0x61, 0x64, 0x61, 0x74, 0x61]

  /** "beforesendhook" */
  const HOOK: Bytes := [0x62, 0x65, 0x66, 0x6F, 0x72, 0x65, 0x73, 0x65, 0x6E, 0x64, 0x68, 0x6F, 0x6F, 0x6B]

  type KV = map<Bytes, Bytes>

  /** GetDenomPrefixStore: `denoms|{denom}|` */
  function DenomPrefix(denom: Bytes): Bytes {
    DENOMS + [PIPE] + denom + [PIPE]
  }

  /** GetCreatorPrefix: `creator|{creator}|` */
  function CreatorPrefix(creator: Bytes): Bytes {
    CREATOR + [PIPE] + creator + [PIPE]
  }

  /** GetCreatorsPrefix: `creator|` */
  function CreatorsPrefix(): Bytes {
    CREATOR + [PIPE]
  }

  function AuthorityKey(denom: Bytes): Bytes {
    DenomPrefix(denom) + AUTHORITY
  }

  function HookKey(denom: Bytes): Bytes {
    DenomPrefix(denom) + HOOK
  }

  function IndexKey(creator: Bytes, denom: Bytes): Bytes {
    CreatorPrefix(creator) + denom
  }

  predicate PipeFree(s: Bytes) {
    PIPE !in s
  }

  /** The keys as a node reads them in its store. */
  lemma KeyLayout(creator: Bytes, denom: Bytes)
    ensures AuthorityKey(denom) == Ascii("denoms|") + denom + Ascii("|authoritymetadata")
    ensures HookKey(denom) == Ascii("denoms|") + denom + Ascii("|beforesendhook")
    ensures IndexKey(creator, denom) == Ascii("creator|") + creator + Ascii("|") + denom
  {
    PrefixBytes();
    AuthorityBytes();
    HookBytes();
    hide Ascii;
  }

  lemma PrefixBytes()
    ensures Ascii("denoms|") == DENOMS + [PIPE] && Ascii("creator|") == CREATOR + [PIPE] && Ascii("|") == [PIPE]
  {
  }

  lemma AuthorityBytes()
    ensures Ascii("|authoritymetadata") == [PIPE] + AUTHORITY
  {
  }

  lemma HookBytes()
    ensures Ascii("|beforesendhook") == [PIPE] + HOOK
  {
  }

  // ----- no two keys coincide -------------------------------------------------------

  lemma AuthorityKeysDiffer(d: Bytes, e: Bytes)
    ensures AuthorityKey(d) == AuthorityKey(e) ==> d == e
  {
    if AuthorityKey(d) == AuthorityKey(e) {
      assert d == AuthorityKey(d)[7..7 + |d|];
      assert e == AuthorityKey(e)[7..7 + |e|];
    }
  }

  lemma HookKeysDiffer(d: Bytes, e: Bytes)
    ensures HookKey(d) == HookKey(e) ==> d == e
  {
    if HookKey(d) == HookKey(e) {
      assert d == HookKey(d)[7..7 + |d|];
      assert e == HookKey(e)[7..7 + |e|];
    }
  }

  /** An authority record is never a hook, of the same or of any other denom. */
  lemma AuthorityIsNoHook(d: Bytes, e: Bytes)
    ensures AuthorityKey(d) != HookKey(e)
  {
    var a, h := AuthorityKey(d), HookKey(e);
    assert a[|a| - 1] == AUTHORITY[16] == 0x61;
    assert h[|h| - 1] == HOOK[13] == 0x6B;
  }

  lemma IndexIsNoDenomRecord(creator: Bytes, denom: Bytes, e: Bytes)
    ensures IndexKey(creator, denom) != AuthorityKey(e) && IndexKey(creator, denom) != HookKey(e)
  {
    assert IndexKey(creator, denom)[0] == 0x63;
    assert AuthorityKey(e)[0] == 0x64 && HookKey(e)[0] == 0x64;
  }

  /** The last pipe of `a|b` is where `a` ends when `b` has none. */
  lemma LastPipe(a: Bytes, b: Bytes)
    requires PipeFree(b)
    ensures var s := a + [PIPE] + b;
            s[|a|] == PIPE && forall k :: |a| < k < |s| ==> s[k] != PIPE
  {
    var s := a + [PIPE] + b;
    forall k | |a| < k < |s| ensures s[k] != PIPE {
      assert s[k] == b[k - |a| - 1];
    }
  }

  /** `a|b` with a pipe-free `b` determines both parts. */
  lemma LastPipeSplits(a: Bytes, b: Bytes, c: Bytes, d: Bytes)
    requires PipeFree(b) && PipeFree(d)
    requires a + [PIPE] + b == c + [PIPE] + d
    ensures a == c && b == d
  {
    LastPipe(a, b);
    LastPipe(c, d);
    var s, t := a + [PIPE] + b, c + [PIPE] + d;
    assert |a| == |c|;
    assert a == s[..|a|] && c == t[..|c|];
    assert b == s[|a| + 1..] && d == t[|c| + 1..];
  }

  /** `a|b` without further pipes starts with `y|` only when `y` is `a`. */
  lemma OnlyPipe(a: Bytes, b: Bytes, y: Bytes)
    requires PipeFree(a) && PipeFree(b)
    ensures y + [PIPE] <= a + [PIPE] + b <==> y == a
  {
    var s := a + [PIPE] + b;
    LastPipe(a, b);
    assert forall k :: 0 <= k < |a| ==> s[k] == a[k];
    if y + [PIPE] <= s {
      assert (y + [PIPE])[|y|] == PIPE;
      assert |y| == |a|;
      assert y == (y + [PIPE])[..|y|] && a == s[..|a|];
    }
  }

  lemma SamePrefix(p: Bytes, x: Bytes, y: Bytes)
    ensures p + y <= p + x <==> y <= x
  {
    if p + y <= p + x {
      assert y == (p + y)[|p|..] && x == (p + x)[|p|..];
    }
  }

  lemma IndexKeysDiffer(c1: Bytes, d1: Bytes, c2: Bytes, d2: Bytes)
    requires PipeFree(d1) && PipeFree(d2)
    ensures IndexKey(c1, d1) == IndexKey(c2, d2) ==> c1 == c2 && d1 == d2
  {
    if IndexKey(c1, d1) == IndexKey(c2, d2) {
      assert IndexKey(c1, d1) == (CREATOR + [PIPE] + c1) + [PIPE] + d1;
      assert IndexKey(c2, d2) == (CREATOR + [PIPE] + c2) + [PIPE] + d2;
      LastPipeSplits(CREATOR + [PIPE] + c1, d1, CREATOR + [PIPE] + c2, d2);
      assert c1 == (CREATOR + [PIPE] + c1)[8..];
      assert c2 == (CREATOR + [PIPE] + c2)[8..];
    }
  }

  predicate EndsWith(s: Bytes, t: Bytes) {
    |t| <= |s| && s[|s| - |t|..] == t
  }

  /** Two list entries with one key, the first denom the longer one: its tail is `|` and the other denom. */
  lemma AliasEndsWith(c1: Bytes, d1: Bytes, c2: Bytes, d2: Bytes)
    requires IndexKey(c1, d1) == IndexKey(c2, d2) && |d1| > |d2|
    ensures EndsWith(d1, [PIPE] + d2)
  {
    var k := IndexKey(c1, d1);
    assert k == CREATOR + [PIPE] + c1 + [PIPE] + d1 == CREATOR + [PIPE] + c2 + ([PIPE] + d2);
    assert k[|k| - |d1|..] == d1 && k[|k| - |d2| - 1..] == [PIPE] + d2;
    assert d1[|d1| - |d2| - 1..] == k[|k| - |d2| - 1..];
  }

  lemma EndsWithAliases(d1: Bytes, d2: Bytes)
    requires EndsWith(d1, [PIPE] + d2)
    ensures d1 != d2
    ensures exists c :: IndexKey([], d1) == IndexKey(c, d2)
  {
    var x := d1[..|d1| - |d2| - 1];
    assert d1 == x + ([PIPE] + d2);
    assert IndexKey([], d1) == IndexKey([PIPE] + x, d2);
  }

  /**
   * When the list entries of two denoms can be taken for each other: for some creators if and only
   * if one of the denoms ends in a pipe and the other denom. Between pipe-free denoms it never happens.
   */
  lemma IndexKeysAliasExactly(d1: Bytes, d2: Bytes)
    ensures (exists c1, c2 :: IndexKey(c1, d1) == IndexKey(c2, d2) && (c1, d1) != (c2, d2)) <==>
            EndsWith(d1, [PIPE] + d2) || EndsWith(d2, [PIPE] + d1)
  {
    hide IndexKey;
    forall c1, c2 | IndexKey(c1, d1) == IndexKey(c2, d2) && (c1, d1) != (c2, d2)
      ensures EndsWith(d1, [PIPE] + d2) || EndsWith(d2, [PIPE] + d1)
    {
      if |d1| == |d2| { SameLengthNoAlias(c1, d1, c2, d2); }
      if |d1| > |d2| { AliasEndsWith(c1, d1, c2, d2); }
      if |d2| > |d1| { AliasEndsWith(c2, d2, c1, d1); }
    }
    if EndsWith(d1, [PIPE] + d2) {
      EndsWithAliases(d1, d2);
      var c :| IndexKey([], d1) == IndexKey(c, d2);
      assert ([], d1) != (c, d2);
    } else if EndsWith(d2, [PIPE] + d1) {
      EndsWithAliases(d2, d1);
      var c :| IndexKey([], d2) == IndexKey(c, d1);
      assert IndexKey(c, d1) == IndexKey([], d2) && (c, d1) != ([], d2);
    }
  }

  lemma SameLengthNoAlias(c1: Bytes, d1: Bytes, c2: Bytes, d2: Bytes)
    requires IndexKey(c1, d1) == IndexKey(c2, d2) && |d1| == |d2|
    ensures c1 == c2 && d1 == d2
  {
    var k := IndexKey(c1, d1);
    assert |c1| == |c2|;
    assert k[8..8 + |c1|] == c1 && k[8..8 + |c1|] == c2;
    assert k[|c1| + 9..] == d1 && k[|c1| + 9..] == d2;
  }

  // ----- the tables ----------------------------------------------------------------------

  /**
   * What the store means: authority records and hooks by denom, and the creator index as a set
   * of (creator, denom) entries.
   */
  datatype Tables = Tables(admins: map<Bytes, Authority>, index: set<(Bytes, Bytes)>, hooks: map<Bytes, Bytes>)

  const EMPTY_TABLES := Tables(map[], {}, map[])

  ghost function AdminKeys(t: Tables): set<Bytes> {
    set d | d in t.admins :: AuthorityKey(d)
  }

  ghost function HookKeys(t: Tables): set<Bytes> {
    set d | d in t.hooks :: HookKey(d)
  }

  ghost function IndexKeys(t: Tables): set<Bytes> {
    set p | p in t.index :: IndexKey(p.0, p.1)
  }

  ghost predicate IndexIsPipeFree(t: Tables) {
    forall p :: p in t.index ==> PipeFree(p.0) && PipeFree(p.1)
  }

  /** The flat store holds exactly the tables: these keys, these values, nothing else. */
  ghost predicate Holds(kv: KV, t: Tables) {
    && IndexIsPipeFree(t)
    && kv.Keys == AdminKeys(t) + HookKeys(t) + IndexKeys(t)
    && (forall d :: d in t.admins && AuthorityKey(d) in kv ==> kv[AuthorityKey(d)] == EncAuthority(t.admins[d]))
    && (forall d :: d in t.hooks && HookKey(d) in kv ==> kv[HookKey(d)] == t.hooks[d])
    && (forall p :: p in t.index && IndexKey(p.0, p.1) in kv ==> kv[IndexKey(p.0, p.1)] == p.1)
  }

  lemma EmptyHolds()
    ensures Holds(map[], EMPTY_TABLES)
  {
  }

  /** Reading an authority record through its denom's prefix store is reading the table. */
  lemma LookupAuthority(kv: KV, t: Tables, d: Bytes)
    requires Holds(kv, t)
    ensures AuthorityKey(d) in kv <==> d in t.admins
    ensures d in t.admins ==> kv[AuthorityKey(d)] == EncAuthority(t.admins[d])
  {
    hide AuthorityKey, HookKey, IndexKey, EncAuthority, PipeFree;
    if AuthorityKey(d) in AdminKeys(t) {
      var e :| e in t.admins && AuthorityKey(e) == AuthorityKey(d);
      AuthorityKeysDiffer(e, d);
    }
    forall e ensures AuthorityKey(d) != HookKey(e) { AuthorityIsNoHook(d, e); }
    forall c, e ensures IndexKey(c, e) != AuthorityKey(d) { IndexIsNoDenomRecord(c, e, d); }
    assert d in t.admins ==> AuthorityKey(d) in AdminKeys(t);
  }

  lemma LookupHook(kv: KV, t: Tables, d: Bytes)
    requires Holds(kv, t)
    ensures HookKey(d) in kv <==> d in t.hooks
    ensures d in t.hooks ==> kv[HookKey(d)] == t.hooks[d]
  {
    hide AuthorityKey, HookKey, IndexKey, EncAuthority, PipeFree;
    if HookKey(d) in HookKeys(t) {
      var e :| e in t.hooks && HookKey(e) == HookKey(d);
      HookKeysDiffer(e, d);
    }
    forall e ensures AuthorityKey(e) != HookKey(d) { AuthorityIsNoHook(e, d); }
    forall c, e ensures IndexKey(c, e) != HookKey(d) { IndexIsNoDenomRecord(c, e, d); }
    assert d in t.hooks ==> HookKey(d) in HookKeys(t);
  }

  lemma SetAuthority(kv: KV, t: Tables, denom: Bytes, a: Authority)
    requires Holds(kv, t)
    ensures Holds(kv[AuthorityKey(denom) := EncAuthority(a)], t.(admins := t.admins[denom := a]))
  {
    hide AuthorityKey, HookKey, IndexKey, EncAuthority, PipeFree;
    var t' := t.(admins := t.admins[denom := a]);
    assert AdminKeys(t') == AdminKeys(t) + {AuthorityKey(denom)};
    forall d ensures AuthorityKey(denom) == AuthorityKey(d) ==> denom == d { AuthorityKeysDiffer(denom, d); }
    forall d ensures AuthorityKey(denom) != HookKey(d) { AuthorityIsNoHook(denom, d); }
    forall c, d ensures IndexKey(c, d) != AuthorityKey(denom) { IndexIsNoDenomRecord(c, d, denom); }
    forall d | d in t.admins ensures AuthorityKey(d) in kv { LookupAuthority(kv, t, d); }
  }

  lemma SetHook(kv: KV, t: Tables, denom: Bytes, contract: Bytes)
    requires Holds(kv, t)
    ensures Holds(kv[HookKey(denom) := contract], t.(hooks := t.hooks[denom := contract]))
  {
    hide AuthorityKey, HookKey, IndexKey, EncAuthority, PipeFree;
    var t' := t.(hooks := t.hooks[denom := contract]);
    assert HookKeys(t') == HookKeys(t) + {HookKey(denom)};
    forall d ensures HookKey(denom) == HookKey(d) ==> denom == d { HookKeysDiffer(denom, d); }
    forall d ensures AuthorityKey(d) != HookKey(denom) { AuthorityIsNoHook(d, denom); }
    forall c, d ensures IndexKey(c, d) != HookKey(denom) { IndexIsNoDenomRecord(c, d, denom); }
    forall d | d in t.hooks ensures HookKey(d) in kv { LookupHook(kv, t, d); }
  }

  lemma HookKeysWithout(t: Tables, denom: Bytes)
    ensures HookKeys(t.(hooks := t.hooks - {denom})) == HookKeys(t) - {HookKey(denom)}
  {
    forall d ensures HookKey(denom) == HookKey(d) ==> denom == d { HookKeysDiffer(denom, d); }
    hide HookKey;
  }

  lemma DeleteHook(kv: KV, t: Tables, denom: Bytes)
    requires Holds(kv, t)
    ensures Holds(kv - {HookKey(denom)}, t.(hooks := t.hooks - {denom}))
  {
    hide AuthorityKey, HookKey, IndexKey, EncAuthority, PipeFree;
    var t' := t.(hooks := t.hooks - {denom});
    HookKeysWithout(t, denom);
    forall d ensures HookKey(denom) == HookKey(d) ==> denom == d { HookKeysDiffer(denom, d); }
    forall d ensures AuthorityKey(d) != HookKey(denom) { AuthorityIsNoHook(d, denom); }
    forall c, d ensures IndexKey(c, d) != HookKey(denom) { IndexIsNoDenomRecord(c, d, denom); }
    hide HookKeys, AdminKeys, IndexKeys;
    assert (kv - {HookKey(denom)}).Keys == kv.Keys - {HookKey(denom)};
  }

  lemma AddIndex(kv: KV, t: Tables, creator: Bytes, denom: Bytes)
    requires Holds(kv, t)
    requires PipeFree(creator) && PipeFree(denom)
    ensures Holds(kv[IndexKey(creator, denom) := denom], t.(index := t.index + {(creator, denom)}))
  {
    hide AuthorityKey, HookKey, IndexKey, EncAuthority, PipeFree;
    var t' := t.(index := t.index + {(creator, denom)});
    assert (creator, denom).0 == creator && (creator, denom).1 == denom;
    assert IndexKeys(t') == IndexKeys(t) + {IndexKey(creator, denom)};
    forall d ensures IndexKey(creator, denom) != AuthorityKey(d) && IndexKey(creator, denom) != HookKey(d) {
      IndexIsNoDenomRecord(creator, denom, d);
    }
    forall p | p in t.index
      ensures IndexKey(p.0, p.1) == IndexKey(creator, denom) ==> p.0 == creator && p.1 == denom
    {
      IndexKeysDiffer(p.0, p.1, creator, denom);
    }
    forall p | p in t.index ensures IndexKey(p.0, p.1) in kv { assert IndexKey(p.0, p.1) in IndexKeys(t); }
  }

  // ----- prefix stores and iteration ---------------------------------------------------------

  /** The keys a prefix store sees, with the prefix still on. */
  function KeysUnder(kv: KV, prefix: Bytes): set<Bytes> {
    set k | k in kv && prefix <= k
  }

  /** prefix.Store.Iterator(nil, nil): the keys it visits, prefix still on, in their order. */
  function Iterate(kv: KV, prefix: Bytes): (ks: seq<Bytes>)
    ensures forall i :: 0 <= i < |ks| ==> ks[i] in kv && prefix <= ks[i]
  {
    var ks := Sorted(KeysUnder(kv, prefix));
    assert forall i :: 0 <= i < |ks| ==> ks[i] in ks;
    ks
  }

  lemma IndexKeyStarts(c: Bytes, d: Bytes, creator: Bytes)
    requires PipeFree(c) && PipeFree(d)
    ensures CreatorsPrefix() <= IndexKey(c, d)
    ensures CreatorPrefix(creator) <= IndexKey(c, d) <==> c == creator
  {
    assert IndexKey(c, d) == CreatorsPrefix() + (c + [PIPE] + d);
    assert CreatorPrefix(creator) == CreatorsPrefix() + (creator + [PIPE]);
    SamePrefix(CreatorsPrefix(), c + [PIPE] + d, creator + [PIPE]);
    OnlyPipe(c, d, creator);
  }

  lemma DenomRecordStarts(d: Bytes, prefix: Bytes)
    requires prefix != [] && prefix[0] == 0x63
    ensures !(prefix <= AuthorityKey(d)) && !(prefix <= HookKey(d))
  {
    assert AuthorityKey(d)[0] == 0x64 && HookKey(d)[0] == 0x64;
  }

  /** The prefix `creator|` captures the creator index, all of it and nothing else. */
  lemma CreatorsPrefixIsTheIndex(kv: KV, t: Tables)
    requires Holds(kv, t)
    ensures KeysUnder(kv, CreatorsPrefix()) == IndexKeys(t)
  {
    hide AuthorityKey, HookKey, IndexKey, EncAuthority, PipeFree;
    var prefix := CreatorsPrefix();
    forall d ensures !(prefix <= AuthorityKey(d)) && !(prefix <= HookKey(d)) {
      DenomRecordStarts(d, prefix);
    }
    forall p | p in t.index ensures prefix <= IndexKey(p.0, p.1) {
      IndexKeyStarts(p.0, p.1, p.0);
    }
  }

  /** The prefix of a creator, whatever bytes it is spelled with, captures that creator's entries only. */
  lemma CreatorPrefixIsOneCreator(kv: KV, t: Tables, creator: Bytes)
    requires Holds(kv, t)
    ensures KeysUnder(kv, CreatorPrefix(creator)) ==
            set p | p in t.index && p.0 == creator :: IndexKey(p.0, p.1)
  {
    var prefix := CreatorPrefix(creator);
    assert prefix[0] == 0x63;
    hide AuthorityKey, HookKey, IndexKey, EncAuthority, PipeFree, CreatorPrefix;
    forall d ensures !(prefix <= AuthorityKey(d)) && !(prefix <= HookKey(d)) {
      DenomRecordStarts(d, prefix);
    }
    forall p | p in t.index ensures prefix <= IndexKey(p.0, p.1) <==> p.0 == creator {
      IndexKeyStarts(p.0, p.1, creator);
    }
  }

  lemma DenomPrefixStarts(d: Bytes, tail: Bytes, denom: Bytes)
    requires PipeFree(d) && PipeFree(tail)
    ensures DenomPrefix(denom) <= DenomPrefix(d) + tail <==> d == denom
  {
    assert DenomPrefix(d) + tail == (DENOMS + [PIPE]) + (d + [PIPE] + tail);
    assert DenomPrefix(denom) == (DENOMS + [PIPE]) + (denom + [PIPE]);
    SamePrefix(DENOMS + [PIPE], d + [PIPE] + tail, denom + [PIPE]);
    OnlyPipe(d, tail, denom);
  }

  lemma DenomPrefixCaptures(d: Bytes, denom: Bytes)
    requires PipeFree(d)
    ensures DenomPrefix(denom) <= AuthorityKey(d) <==> d == denom
    ensures DenomPrefix(denom) <= HookKey(d) <==> d == denom
  {
    assert PipeFree(AUTHORITY) && PipeFree(HOOK);
    hide DenomPrefix;
    DenomPrefixStarts(d, AUTHORITY, denom);
    DenomPrefixStarts(d, HOOK, denom);
  }

  lemma IndexIsUnderNoDenom(c: Bytes, d: Bytes, denom: Bytes)
    ensures !(DenomPrefix(denom) <= IndexKey(c, d))
  {
    assert IndexKey(c, d)[0] == 0x63 && DenomPrefix(denom)[0] == 0x64;
  }

  /** The prefix store of a denom sees that denom's two records only. */
  lemma DenomPrefixIsOneDenom(kv: KV, t: Tables, denom: Bytes, k: Bytes)
    requires Holds(kv, t)
    requires forall d :: d in t.admins || d in t.hooks ==> PipeFree(d)
    ensures k in KeysUnder(kv, DenomPrefix(denom)) <==>
            (denom in t.admins && k == AuthorityKey(denom)) || (denom in t.hooks && k == HookKey(denom))
  {
    hide AuthorityKey, HookKey, IndexKey, EncAuthority, PipeFree, DenomPrefix;
    LookupAuthority(kv, t, denom);
    LookupHook(kv, t, denom);
    if k in AdminKeys(t) {
      var d :| d in t.admins && k == AuthorityKey(d);
      DenomPrefixCaptures(d, denom);
      AuthorityKeysDiffer(d, denom);
      AuthorityIsNoHook(d, denom);
    } else if k in HookKeys(t) {
      var d :| d in t.hooks && k == HookKey(d);
      DenomPrefixCaptures(d, denom);
      HookKeysDiffer(d, denom);
      AuthorityIsNoHook(denom, d);
    } else if k in IndexKeys(t) {
      var p :| p in t.index && k == IndexKey(p.0, p.1);
      IndexIsUnderNoDenom(p.0, p.1, denom);
      IndexIsNoDenomRecord(p.0, p.1, denom);
    }
  }
}
