/** The stateful side of internal/wallet/manager.go: creating, listing and signing. */
module WalletManager {
  import opened Wallets
  import opened Wrappers
  import opened Sorting
  import Ledgers = Store

  // ----- Creation -----

  predicate NameChar(c: char) {
    'A' <= c <= 'Z' || 'a' <= c <= 'z' || '0' <= c <= '9' || c == '_' || c == '-'
  }

  predicate ValidName(name: string) {
    name != "" && forall k :: 0 <= k < |name| ==> NameChar(name[k])
  }

  /** How saving a new key ended; a failure may leave an unreadable entry behind. */
  datatype Saving = Saved(address: string) | Failed(partial: bool)

  /** One creation request with the outcomes of the calls it makes. */
  datatype Request = Request(name: string, keyType: KeyType, available: bool, saving: Saving)

  /** The checks made before anything is written. */
  function Refusal(st: Store, q: Request): Option<WalletError> {
    if !ValidName(q.name) then Some(InvalidName)
    else if !q.keyType.IsPQ() && q.keyType != ECDSA then Some(KeyTypeRefused)
    else if q.name in st.ecdsa || q.name in st.pq then Some(Exists)
    else if q.keyType.IsPQ() && !q.available then Some(Unavailable)
    else None
  }

  function SchemeOf(kt: KeyType): Scheme {
    match kt
    case MLDSA44 => MLDSA
    case FNDSA512 => FNDSA
    case _ => UnknownScheme
  }

  function Created(st: Store, q: Request): Store {
    if Refusal(st, q).Some? || q.saving == Failed(false) then st
    else if q.keyType.IsPQ() then
      var entry := if q.saving.Saved? then Account(q.saving.address, SchemeOf(q.keyType)) else Corrupt;
      st.(folders := st.folders + [q.name], pq := st.pq[q.name := entry])
    else
      var entry := if q.saving.Saved? then Readable(q.saving.address) else Unreadable;
      st.(accounts := st.accounts + [q.name], ecdsa := st.ecdsa[q.name := entry])
  }

  function AfterAll(st: Store, requests: seq<Request>): Store
    decreases |requests|
  {
    if requests == [] then st else AfterAll(Created(st, requests[0]), requests[1..])
  }

  /** No name is in both families. */
  ghost predicate Unique(st: Store) {
    forall name :: !Shared(st, name)
  }

  lemma CreatedUnique(st: Store, q: Request)
    requires Unique(st)
    ensures Unique(Created(st, q))
  {
    forall name
      ensures !Shared(Created(st, q), name)
    {
      assert !Shared(st, name);
    }
  }

  lemma Appended<V>(names: seq<string>, m: map<string, V>, name: string, v: V)
    requires Distinct(names) && (forall n :: n in names <==> n in m) && name !in m
    ensures Distinct(names + [name]) && (forall n :: n in names + [name] <==> n in m[name := v])
  {
  }

  lemma CreatedConsistent(st: Store, q: Request)
    requires Consistent(st)
    ensures Consistent(Created(st, q))
  {
    if Refusal(st, q).None? && q.saving != Failed(false) {
      if q.keyType.IsPQ() {
        Appended(st.folders, st.pq, q.name, Created(st, q).pq[q.name]);
      } else {
        Appended(st.accounts, st.ecdsa, q.name, Created(st, q).ecdsa[q.name]);
      }
    }
  }

  /** A creation touches no other name, and a created wallet is found under its own. */
  lemma CreatedKeeps(st: Store, q: Request, name: string)
    ensures name in st.ecdsa || name in st.pq ==> LookupByName(Created(st, q), name) == LookupByName(st, name)
    ensures name in st.ecdsa || name in st.pq ==> name in Created(st, q).ecdsa || name in Created(st, q).pq
    ensures Refusal(st, q).None? && q.saving.Saved? ==>
              LookupByName(Created(st, q), q.name) == Ok(Some(Info(q.name, q.saving.address, q.keyType, false)))
  {
  }

  /** Every name, shared ones included, is looked up after any run of creations as before. */
  lemma {:induction false} CreationsKeepWallets(st: Store, requests: seq<Request>, name: string)
    requires name in st.ecdsa || name in st.pq
    ensures LookupByName(AfterAll(st, requests), name) == LookupByName(st, name)
    decreases |requests|
  {
    if requests != [] {
      CreatedKeeps(st, requests[0], name);
      CreationsKeepWallets(Created(st, requests[0]), requests[1..], name);
    }
  }

  /** Over any run of creations names stay unique, and every wallet is found as it was created. */
  lemma {:induction false} CreationsKeepNamesUnique(st: Store, requests: seq<Request>, name: string)
    requires Consistent(st) && Unique(st)
    ensures Consistent(AfterAll(st, requests)) && Unique(AfterAll(st, requests))
    ensures name in st.ecdsa || name in st.pq ==> LookupByName(AfterAll(st, requests), name) == LookupByName(st, name)
    decreases |requests|
  {
    if requests != [] {
      CreatedConsistent(st, requests[0]);
      CreatedUnique(st, requests[0]);
      CreatedKeeps(st, requests[0], name);
      CreationsKeepNamesUnique(Created(st, requests[0]), requests[1..], name);
    }
  }

  /**
   * The wallet that a handler looked up under a policy's name is the one it will
   * sign with, whatever wallets are created while a human is asked.
   */
  lemma SignerSurvivesCreations(st: Store, requests: seq<Request>, input: string)
    requires Consistent(st) && TronAddresses(st)
    requires Lookup(st, ResolveWalletName(st, input)).Ok?
    ensures Lookup(AfterAll(st, requests), ResolveWalletName(st, input)) == Lookup(st, ResolveWalletName(st, input))
  {
    var name := ResolveWalletName(st, input);
    var info := Lookup(st, name).value;
    PolicyKeyIsSigner(st, input);
    LookupSound(st, name);
    LookupByNameIff(st, name, info);
    CreationsKeepWallets(st, requests, name);
  }

  /** A wallet's counters never share a key with another wallet's. */
  lemma {:induction false} CreatedNamesAreProper(st: Store, requests: seq<Request>, name: string, token: string,
      day: Ledgers.Day)
    requires name !in st.ecdsa && name !in st.pq
    requires name in AfterAll(st, requests).ecdsa || name in AfterAll(st, requests).pq
    ensures ValidName(name) && Ledgers.Proper(Ledgers.Slot(name, token, day))
    decreases |requests|
  {
    var next := Created(st, requests[0]);
    if name !in next.ecdsa && name !in next.pq {
      CreatedNamesAreProper(next, requests[1..], name, token, day);
    }
  }

  // ----- Listing -----

  /** The listing order: by name, then by the text of the key type. */
  function KeyTypeText(kt: KeyType): string {
    match kt
    case ECDSA => "ecdsa"
    case MLDSA44 => "ml_dsa_44"
    case FNDSA512 => "fn_dsa_512"
    case Unsupported(text) => text
  }

  predicate InOrder(a: Info, b: Info) {
    if a.name != b.name then Lex(a.name, b.name) else Lex(KeyTypeText(a.keyType), KeyTypeText(b.keyType))
  }

  lemma InOrderIsTotal()
    ensures TotalPreorder(InOrder)
  {
    forall a, b ensures InOrder(a, b) || InOrder(b, a) {
      LexTotal(a.name, b.name);
      LexTotal(KeyTypeText(a.keyType), KeyTypeText(b.keyType));
    }
    forall a, b, c | InOrder(a, b) && InOrder(b, c) ensures InOrder(a, c) {
      InOrderTransitive(a, b, c);
    }
  }

  lemma InOrderTransitive(a: Info, b: Info, c: Info)
    requires InOrder(a, b) && InOrder(b, c)
    ensures InOrder(a, c)
  {
    if a.name != b.name && b.name != c.name {
      LexTransitive(a.name, b.name, c.name);
      LexTotal(a.name, b.name);
    } else if a.name == b.name == c.name {
      LexTransitive(KeyTypeText(a.keyType), KeyTypeText(b.keyType), KeyTypeText(c.keyType));
    }
  }

  /** The listing holds both families' wallets of this name. */
  predicate ListedTwice(st: Store, name: string) {
    Stored(st, name, false).Some? && st.listable && Stored(st, name, true).Some?
  }

  predicate Listed(st: Store, w: Info) {
    && Stored(st, w.name, w.keyType.IsPQ()) == Some(w.(duplicate := false))
    && (w.keyType.IsPQ() ==> st.listable)
    && w.duplicate == ListedTwice(st, w.name)
  }

  /** A flagged entry is one that a lookup refuses; an entry that a lookup accepts is what was listed. */
  lemma DuplicateIsAmbiguous(st: Store, w: Info)
    requires Listed(st, w)
    ensures w.duplicate ==> Lookup(st, w.name) == Err(Ambiguous)
    ensures Lookup(st, w.name) == if Shared(st, w.name) then Err(Ambiguous) else Ok(w.(duplicate := false))
  {
  }

  /** The converse fails: an unreadable twin makes a name ambiguous without being listed. */
  lemma AmbiguousUnflagged(st: Store, w: Info)
    requires Listed(st, w) && !w.duplicate
    ensures Lookup(st, w.name) == Err(Ambiguous) <==>
            && w.name in st.ecdsa && w.name in st.pq
            && (st.ecdsa[w.name].Unreadable? || !st.listable || Stored(st, w.name, true).None?)
  {
  }

  /** No two listed wallets tie, so the order of the listing is the only one. */
  lemma ListedStrictly(st: Store, v: Info, w: Info)
    requires Listed(st, v) && Listed(st, w) && InOrder(v, w) && InOrder(w, v)
    ensures v == w
  {
    LexTotal(v.name, w.name);
    LexTotal(KeyTypeText(v.keyType), KeyTypeText(w.keyType));
    assert KeyTypeText(v.keyType)[0] == KeyTypeText(w.keyType)[0];
  }

  ghost predicate Strict(r: seq<Info>) {
    forall i, j :: 0 <= i < j < |r| ==> !InOrder(r[j], r[i])
  }

  lemma ListingIsStrict(st: Store, r: seq<Info>)
    requires Sorted(r, InOrder) && Distinct(r) && forall w :: w in r ==> Listed(st, w)
    ensures Strict(r)
  {
    forall i, j | 0 <= i < j < |r|
      ensures !InOrder(r[j], r[i])
    {
      if InOrder(r[j], r[i]) {
        ListedStrictly(st, r[i], r[j]);
      }
    }
  }

  /** The usable wallets among `names`, in their order. */
  function Infos(st: Store, names: seq<string>, pq: bool): seq<Info> {
    if names == [] then []
    else
      var last := Stored(st, names[|names| - 1], pq);
      Infos(st, names[..|names| - 1], pq) + (if last.Some? then [last.value] else [])
  }

  lemma {:induction false} InfosAre(st: Store, names: seq<string>, pq: bool, w: Info)
    ensures w in Infos(st, names, pq) <==> w.name in names && Stored(st, w.name, pq) == Some(w)
  {
    if names != [] {
      var front, name := names[..|names| - 1], names[|names| - 1];
      InfosAre(st, front, pq, w);
      assert names == front + [name];
    }
  }

  function Count(ws: seq<Info>, name: string): nat {
    if ws == [] then 0 else Count(ws[..|ws| - 1], name) + (if ws[|ws| - 1].name == name then 1 else 0)
  }

  lemma {:induction false} CountJoin(a: seq<Info>, b: seq<Info>, name: string)
    ensures Count(a + b, name) == Count(a, name) + Count(b, name)
  {
    if b == [] {
      assert a + b == a;
    } else {
      CountJoin(a, b[..|b| - 1], name);
      assert (a + b)[..|a + b| - 1] == a + b[..|b| - 1];
    }
  }

  lemma {:induction false} CountStored(st: Store, names: seq<string>, pq: bool, name: string)
    requires Distinct(names)
    ensures Count(Infos(st, names, pq), name) == if name in names && Stored(st, name, pq).Some? then 1 else 0
  {
    if names != [] {
      var front, last := names[..|names| - 1], names[|names| - 1];
      CountStored(st, front, pq, name);
      assert names == front + [last];
      var tail := if Stored(st, last, pq).Some? then [Stored(st, last, pq).value] else [];
      CountJoin(Infos(st, front, pq), tail, name);
    }
  }

  // ----- The manager -----

  datatype PQKey = PQKey(address: string, scheme: Scheme)

  datatype Signature = Signature(address: string, keyType: KeyType)

  class Manager {
    var st: Store
    /** The addresses of the keystores kept unlocked. */
    var unlocked: seq<string>

    constructor (st: Store)
      requires Consistent(st)
      ensures this.st == st && unlocked == []
    {
      this.st, unlocked := st, [];
    }

    method CreateWalletWithKeyType(q: Request) returns (r: Result<string, WalletError>)
      modifies this`st
      ensures st == Created(old(st), q)
      ensures r.Ok? <==> Refusal(old(st), q).None? && q.saving.Saved?
      ensures r.Ok? ==> LookupByName(st, q.name) == Ok(Some(Info(q.name, r.value, q.keyType, false)))
      ensures Refusal(old(st), q).Some? ==> r == Err(Refusal(old(st), q).value)
    {
      if !ValidName(q.name) {
        return Err(InvalidName);
      }
      if !q.keyType.IsPQ() && q.keyType != ECDSA {
        return Err(KeyTypeRefused);
      }
      if q.name in st.ecdsa || q.name in st.pq {
        return Err(Exists);
      }
      if q.keyType.IsPQ() {
        if !q.available {
          return Err(Unavailable);
        }
        match q.saving {
          case Saved(address) =>
            st := st.(folders := st.folders + [q.name], pq := st.pq[q.name := Account(address, SchemeOf(q.keyType))]);
            return Ok(address);
          case Failed(partial) =>
            if partial {
              st := st.(folders := st.folders + [q.name], pq := st.pq[q.name := Corrupt]);
            }
            return Err(CannotRead);
        }
      }
      match q.saving {
        case Saved(address) =>
          st := st.(accounts := st.accounts + [q.name], ecdsa := st.ecdsa[q.name := Readable(address)]);
          return Ok(address);
        case Failed(partial) =>
          if partial {
            st := st.(accounts := st.accounts + [q.name], ecdsa := st.ecdsa[q.name := Unreadable]);
          }
          return Err(CannotRead);
      }
    }

    method Gather(names: seq<string>, pq: bool) returns (wallets: seq<Info>)
      ensures wallets == Infos(st, names, pq)
    {
      wallets := [];
      for i := 0 to |names|
        invariant wallets == Infos(st, names[..i], pq)
      {
        assert names[..i + 1][..i] == names[..i];
        var found := Stored(st, names[i], pq);
        if found.Some? {
          wallets := wallets + [found.value];
        }
      }
      assert names[..|names|] == names;
    }

    /** Flags the entries whose name is counted more than once. */
    method Flag(wallets: seq<Info>) returns (flagged: seq<Info>)
      ensures Flagging(wallets, flagged)
    {
      var count: map<string, nat> := map[];
      for i := 0 to |wallets|
        invariant forall name :: (if name in count then count[name] else 0) == Count(wallets[..i], name)
      {
        assert wallets[..i + 1][..i] == wallets[..i];
        var name := wallets[i].name;
        count := count[name := (if name in count then count[name] else 0) + 1];
      }
      assert wallets[..|wallets|] == wallets;
      flagged := wallets;
      for i := 0 to |wallets|
        invariant |flagged| == |wallets|
        invariant forall k :: 0 <= k < i ==> flagged[k] == wallets[k].(duplicate := Count(wallets, wallets[k].name) > 1)
        invariant forall k :: i <= k < |wallets| ==> flagged[k] == wallets[k]
      {
        var name := flagged[i].name;
        flagged := flagged[i := flagged[i].(duplicate := (if name in count then count[name] else 0) > 1)];
      }
    }

    method ListWallets() returns (r: seq<Info>)
      requires Consistent(st)
      ensures Sorted(r, InOrder)
      ensures Strict(r)
      ensures forall w :: w in r <==> Listed(st, w)
    {
      var wallets := Gather(st.accounts, false);
      var pqWallets := [];
      if st.listable {
        pqWallets := Gather(st.folders, true);
      }
      var flagged := Flag(wallets + pqWallets);
      forall w ensures w in flagged <==> Listed(st, w) {
        FlaggedAreListed(st, flagged, w);
      }
      InOrderIsTotal();
      r := Sort(flagged, InOrder);
      FlaggedDistinct(st, flagged);
      SameDistinct(flagged, r);
      forall w ensures w in r <==> w in flagged {
        assert w in multiset(r) <==> w in multiset(flagged);
      }
      ListingIsStrict(st, r);
    }

    /** `unlocks`, `available`, `key` and `signs` are the outcomes of the store's and the signer's calls. */
    method SignTransaction(x: string, unlocks: bool, available: bool, key: Option<PQKey>, signs: bool)
      returns (r: Result<Signature, WalletError>)
      modifies this`unlocked
      ensures r.Ok? ==> Lookup(st, x).Ok? && signs
      ensures r.Ok? ==> r.value == Signature(Lookup(st, x).value.address, Lookup(st, x).value.keyType)
      ensures Lookup(st, x).Err? ==> r == Err(Lookup(st, x).error) && unlocked == old(unlocked)
      ensures Lookup(st, x).Ok? && !Lookup(st, x).value.keyType.IsPQ() ==>
                && (r.Ok? <==> unlocks && signs)
                && unlocked == old(unlocked) + (if unlocks then [Lookup(st, x).value.address] else [])
      ensures Lookup(st, x).Ok? && Lookup(st, x).value.keyType.IsPQ() ==>
                && unlocked == old(unlocked)
                && (r.Ok? <==>
                    && available && signs
                    && key == Some(PQKey(Lookup(st, x).value.address, SchemeOf(Lookup(st, x).value.keyType))))
    {
      var info := Lookup(st, x);
      if info.Err? {
        return Err(info.error);
      }
      LookupSound(st, x);
      if !info.value.keyType.IsPQ() {
        if !unlocks {
          return Err(CannotRead);
        }
        unlocked := unlocked + [info.value.address];
        return if signs then Ok(Signature(info.value.address, ECDSA)) else Err(SigningFailed);
      }
      var acct := st.pq[info.value.name];
      if !available {
        return Err(Unavailable);
      }
      if key.None? || key.value.scheme != acct.scheme || key.value.address != info.value.address || !signs {
        return Err(SigningFailed);
      }
      return Ok(Signature(key.value.address, KeyTypeOf(key.value.scheme).value));
    }

    /** Other wallets are created. */
    method Others(requests: seq<Request>)
      modifies this`st
      ensures st == AfterAll(old(st), requests)
    {
      var i := 0;
      while i < |requests|
        invariant 0 <= i <= |requests|
        invariant AfterAll(st, requests[i..]) == AfterAll(old(st), requests)
      {
        assert requests[i..][1..] == requests[i + 1..];
        var _ := CreateWalletWithKeyType(requests[i]);
        i := i + 1;
      }
      assert requests[|requests|..] == [];
    }

    /**
     * The signing handlers: the name the policy is checked under is resolved first
     * and looked up, and used to sign after whatever else was created meanwhile.
     */
    method SignForWallet(input: string, meanwhile: seq<Request>, unlocks: bool, available: bool, key: Option<PQKey>,
        signs: bool)
      returns (policyName: string, r: Result<Signature, WalletError>)
      requires Consistent(st) && TronAddresses(st)
      modifies this
      ensures policyName == ResolveWalletName(old(st), input)
      ensures r.Ok? ==> !Shared(old(st), policyName)
      ensures r.Ok? ==>
                Stored(old(st), policyName, r.value.keyType.IsPQ())
                    == Some(Info(policyName, r.value.address, r.value.keyType, false))
    {
      policyName := ResolveWalletName(st, input);
      var preflight := Lookup(st, policyName);
      if preflight.Err? {
        return policyName, Err(preflight.error);
      }
      PolicyKeyIsSigner(st, input);
      LookupSound(st, policyName);
      SignerSurvivesCreations(st, meanwhile, input);
      Others(meanwhile);
      r := SignTransaction(policyName, unlocks, available, key, signs);
    }

    method GetSigner(x: string, unlocks: bool) returns (r: Result<string, WalletError>)
      modifies this`unlocked
      ensures r.Ok? ==> unlocked == old(unlocked) + [r.value]
      ensures r.Err? ==> unlocked == old(unlocked)
      ensures r.Ok? && Lookup(st, x).Ok? ==>
                !Lookup(st, x).value.keyType.IsPQ() && r.value == Lookup(st, x).value.address
      ensures r.Ok? && Lookup(st, x).Err? ==> Lookup(st, x) == Err(NotFound) && LooksLikeAddress(x) && r.value == x
    {
      var info := Lookup(st, x);
      if info.Ok? {
        if info.value.keyType.IsPQ() {
          return Err(KeyTypeRefused);
        }
        if unlocks {
          unlocked := unlocked + [info.value.address];
        }
        return if unlocks then Ok(info.value.address) else Err(CannotRead);
      }
      if info.error != NotFound {
        return Err(info.error);
      }
      var addr := ResolveAddress(st, x);
      if addr.Err? || !unlocks {
        return if addr.Err? then addr else Err(CannotRead);
      }
      unlocked := unlocked + [addr.value];
      return addr;
    }
  }

  /** What the two families contribute to the listing. */
  function Gathered(st: Store): seq<Info> {
    Infos(st, st.accounts, false) + (if st.listable then Infos(st, st.folders, true) else [])
  }

  lemma CountGathered(st: Store, name: string)
    requires Consistent(st)
    ensures Count(Gathered(st), name) > 1 <==> ListedTwice(st, name)
  {
    CountJoin(Infos(st, st.accounts, false), if st.listable then Infos(st, st.folders, true) else [], name);
    CountStored(st, st.accounts, false, name);
    CountStored(st, st.folders, true, name);
  }

  lemma GatheredAre(st: Store, plain: Info)
    requires Consistent(st)
    ensures plain in Gathered(st) <==>
              Stored(st, plain.name, plain.keyType.IsPQ()) == Some(plain) && (plain.keyType.IsPQ() ==> st.listable)
  {
    InfosAre(st, st.accounts, false, plain);
    InfosAre(st, st.folders, true, plain);
  }

  lemma {:induction false} InfosDistinct(st: Store, names: seq<string>, pq: bool)
    requires Distinct(names)
    ensures Distinct(Infos(st, names, pq))
  {
    if names != [] {
      var front, last := names[..|names| - 1], names[|names| - 1];
      InfosDistinct(st, front, pq);
      if Stored(st, last, pq).Some? {
        InfosAre(st, front, pq, Stored(st, last, pq).value);
        assert last !in front;
      }
    }
  }

  lemma GatheredDistinct(st: Store)
    requires Consistent(st)
    ensures Distinct(Gathered(st))
  {
    var ecdsa, pq := Infos(st, st.accounts, false), if st.listable then Infos(st, st.folders, true) else [];
    InfosDistinct(st, st.accounts, false);
    InfosDistinct(st, st.folders, true);
    forall w | w in ecdsa
      ensures w !in pq
    {
      InfosAre(st, st.accounts, false, w);
      InfosAre(st, st.folders, true, w);
    }
    DistinctJoin(ecdsa, pq);
  }

  lemma FlaggedDistinct(st: Store, flagged: seq<Info>)
    requires Consistent(st) && Flagging(Gathered(st), flagged)
    ensures Distinct(flagged)
  {
    GatheredDistinct(st);
    forall i, j | 0 <= i < j < |flagged|
      ensures flagged[i] != flagged[j]
    {
      GatheredAre(st, Gathered(st)[i]);
      GatheredAre(st, Gathered(st)[j]);
    }
  }

  ghost predicate Flagging(wallets: seq<Info>, flagged: seq<Info>) {
    |flagged| == |wallets|
    && forall k :: 0 <= k < |wallets| ==> flagged[k] == wallets[k].(duplicate := Count(wallets, wallets[k].name) > 1)
  }

  lemma FlaggedFrom(wallets: seq<Info>, flagged: seq<Info>, w: Info) returns (source: Info)
    requires Flagging(wallets, flagged) && w in flagged
    ensures source in wallets && w == source.(duplicate := Count(wallets, source.name) > 1)
  {
    var k :| 0 <= k < |flagged| && flagged[k] == w;
    source := wallets[k];
  }

  lemma FlaggedIs(wallets: seq<Info>, flagged: seq<Info>, source: Info) returns (w: Info)
    requires Flagging(wallets, flagged) && source in wallets
    ensures w in flagged && w == source.(duplicate := Count(wallets, source.name) > 1)
  {
    var k :| 0 <= k < |wallets| && wallets[k] == source;
    w := flagged[k];
  }

  lemma ListedIsFlagged(st: Store, flagged: seq<Info>, w: Info)
    requires Consistent(st) && Flagging(Gathered(st), flagged) && Listed(st, w)
    ensures w in flagged
  {
    var plain := w.(duplicate := false);
    GatheredAre(st, plain);
    CountGathered(st, w.name);
    var v := FlaggedIs(Gathered(st), flagged, plain);
    assert v == w;
  }

  lemma FlaggedIsListed(st: Store, flagged: seq<Info>, w: Info)
    requires Consistent(st) && Flagging(Gathered(st), flagged) && w in flagged
    ensures Listed(st, w)
  {
    var source := FlaggedFrom(Gathered(st), flagged, w);
    CountGathered(st, w.name);
    GatheredAre(st, source);
    assert Stored(st, w.name, w.keyType.IsPQ()) == Some(source);
  }

  lemma FlaggedAreListed(st: Store, flagged: seq<Info>, w: Info)
    requires Consistent(st) && Flagging(Gathered(st), flagged)
    ensures w in flagged <==> Listed(st, w)
  {
    if w in flagged {
      FlaggedIsListed(st, flagged, w);
    }
    if Listed(st, w) {
      ListedIsFlagged(st, flagged, w);
    }
  }
}
