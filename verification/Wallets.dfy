/**
 * Wallet names and addresses over two key families (internal/wallet/manager.go).
 * `account-keys` holds ECDSA keystores and `pq-keys` post-quantum ones; an entry
 * of either family may exist and yet be unreadable.
 */
module Wallets {
  import opened Sorting
  import opened Wrappers

  datatype KeyType = ECDSA | MLDSA44 | FNDSA512 | Unsupported(text: string)
  {
    predicate IsPQ() {
      MLDSA44? || FNDSA512?
    }
  }

  datatype Scheme = MLDSA | FNDSA | UnknownScheme

  function KeyTypeOf(scheme: Scheme): Option<KeyType> {
    match scheme
    case MLDSA => Some(MLDSA44)
    case FNDSA => Some(FNDSA512)
    case UnknownScheme => None
  }

  datatype Entry = Readable(address: string) | Unreadable

  datatype PQEntry = Account(address: string, scheme: Scheme) | Corrupt

  /**
   * `accounts` and `folders` are the listing orders of the two families;
   * `listable` tells whether the post-quantum folder can be listed at all.
   */
  datatype Store = Store(
    accounts: seq<string>, ecdsa: map<string, Entry>,
    folders: seq<string>, pq: map<string, PQEntry>, listable: bool)

  datatype Info = Info(name: string, address: string, keyType: KeyType, duplicate: bool)

  datatype WalletError =
    | NotFound
    | Ambiguous
    | CannotRead
    | UnknownKeyScheme
    | InvalidName
    | KeyTypeRefused
    | Exists
    | Unavailable
    | SigningFailed

  ghost predicate Consistent(st: Store) {
    && Distinct(st.accounts) && (forall n :: n in st.accounts <==> n in st.ecdsa)
    && Distinct(st.folders) && (forall n :: n in st.folders <==> n in st.pq)
  }

  predicate LooksLikeAddress(x: string) {
    |x| == 34 && x[0] == 'T'
  }

  /** Every recorded address is a base58 TRON address. */
  ghost predicate TronAddresses(st: Store) {
    && (forall n :: n in st.ecdsa && st.ecdsa[n].Readable? ==> LooksLikeAddress(st.ecdsa[n].address))
    && (forall n :: n in st.pq && st.pq[n].Account? ==> LooksLikeAddress(st.pq[n].address))
  }

  /** The name exists in both families, readable or not. */
  predicate Shared(st: Store, name: string) {
    name in st.ecdsa && name in st.pq
  }

  /** The usable wallet that one family holds under a name. */
  function Stored(st: Store, name: string, pq: bool): Option<Info> {
    if !pq then
      if name in st.ecdsa && st.ecdsa[name].Readable? then Some(Info(name, st.ecdsa[name].address, ECDSA, false))
          else None
    else if name in st.pq && st.pq[name].Account? && KeyTypeOf(st.pq[name].scheme).Some? then
      Some(Info(name, st.pq[name].address, KeyTypeOf(st.pq[name].scheme).value, false))
    else None
  }

  predicate HoldsECDSA(st: Store, name: string, address: string) {
    name in st.ecdsa && st.ecdsa[name] == Readable(address)
  }

  predicate HoldsPQ(st: Store, name: string, address: string) {
    name in st.pq && st.pq[name].Account? && st.pq[name].address == address
  }

  // ----- Lookup and resolution -----

  function PQInfo(st: Store, name: string): Result<Info, WalletError>
    requires name in st.pq && st.pq[name].Account?
  {
    var kt := KeyTypeOf(st.pq[name].scheme);
    if kt.None? then Err(UnknownKeyScheme) else Ok(Info(name, st.pq[name].address, kt.value, false))
  }

  function LookupByName(st: Store, name: string): Result<Option<Info>, WalletError> {
    var ecdsaExists := name in st.ecdsa;
    var pqTaken := name in st.pq;
    if ecdsaExists && pqTaken then Err(Ambiguous)
    else if pqTaken && st.pq[name].Corrupt? then Err(CannotRead)
    else if pqTaken then
      var info := PQInfo(st, name);
      if info.Err? then Err(info.error) else Ok(Some(info.value))
    else if ecdsaExists && st.ecdsa[name].Readable? then Ok(Some(Info(name, st.ecdsa[name].address, ECDSA, false)))
    else Ok(None)
  }

  /** The first ECDSA account of the listing with this address. */
  function AccountAt(st: Store, names: seq<string>, address: string): (r: Option<string>)
    ensures r.Some? ==> r.value in names && HoldsECDSA(st, r.value, address)
    ensures r.None? ==> forall n :: n in names ==> !HoldsECDSA(st, n, address)
  {
    if names == [] then None
    else if HoldsECDSA(st, names[0], address) then Some(names[0])
    else AccountAt(st, names[1..], address)
  }

  /** The first readable post-quantum account of the listing with this address. */
  function FolderAt(st: Store, names: seq<string>, address: string): (r: Option<string>)
    ensures r.Some? ==> r.value in names && HoldsPQ(st, r.value, address)
    ensures r.None? ==> forall n :: n in names ==> !HoldsPQ(st, n, address)
  {
    if names == [] then None
    else if HoldsPQ(st, names[0], address) then Some(names[0])
    else FolderAt(st, names[1..], address)
  }

  /** The store's own search by address, which fails when it cannot list the folder. */
  function PQByAddress(st: Store, address: string): Result<string, WalletError> {
    if !st.listable then Err(CannotRead)
    else
      match FolderAt(st, st.folders, address)
      case None => Err(NotFound)
      case Some(name) => Ok(name)
  }

  function Lookup(st: Store, x: string): Result<Info, WalletError> {
    var byName := LookupByName(st, x);
    if byName.Err? then Err(byName.error)
    else if byName.value.Some? then Ok(byName.value.value)
    else
      var account := if x != "" then AccountAt(st, st.accounts, x) else None;
      if account.Some? then
        if account.value in st.pq then Err(Ambiguous) else Ok(Info(account.value, x, ECDSA, false))
      else
        var folder := PQByAddress(st, x);
        if folder.Err? then Err(folder.error)
        else if folder.value in st.ecdsa then Err(Ambiguous)
        else assert FolderAt(st, st.folders, x).Some?; PQInfo(st, folder.value)
  }

  function ResolveAddress(st: Store, x: string): Result<string, WalletError> {
    var byName := LookupByName(st, x);
    if byName.Err? then Err(byName.error)
    else if byName.value.Some? then Ok(byName.value.value.address)
    else if LooksLikeAddress(x) then Ok(x)
    else Err(NotFound)
  }

  function ResolveWalletName(st: Store, x: string): string {
    if !LooksLikeAddress(x) then x
    else
      var account := AccountAt(st, st.accounts, x);
      if account.Some? then if Shared(st, account.value) then x else account.value
      else
        var folder := PQByAddress(st, x);
        if folder.Ok? && !Shared(st, folder.value) then folder.value else x
  }

  // ----- What they guarantee -----

  /** A lookup returns a usable wallet that no other family shadows. */
  lemma LookupSound(st: Store, x: string)
    requires Lookup(st, x).Ok?
    ensures var info := Lookup(st, x).value;
            && Stored(st, info.name, info.keyType.IsPQ()) == Some(info)
            && !Shared(st, info.name)
            && (x == info.name || x == info.address)
  {
  }

  /** By name, a lookup succeeds exactly for the usable wallets of unshared names. */
  lemma LookupByNameIff(st: Store, name: string, info: Info)
    ensures LookupByName(st, name) == Ok(Some(info)) <==>
            !Shared(st, name) && info.name == name && Stored(st, name, info.keyType.IsPQ()) == Some(info)
  {
  }

  /**
   * The wallet whose policy is checked is the wallet that signs: a name that a
   * handler obtained from any input is looked up to a wallet of that very name.
   */
  lemma PolicyKeyIsSigner(st: Store, x: string)
    requires Consistent(st) && TronAddresses(st)
    requires Lookup(st, ResolveWalletName(st, x)).Ok?
    ensures Lookup(st, ResolveWalletName(st, x)).value.name == ResolveWalletName(st, x)
  {
  }

  /** With an address of another shape, the two could differ. */
  lemma PolicyKeyNeedsTronAddresses()
    ensures exists st: Store, x ::
              && Consistent(st) && Lookup(st, ResolveWalletName(st, x)).Ok?
              && Lookup(st, ResolveWalletName(st, x)).value.name != ResolveWalletName(st, x)
  {
    var st := Store(["w"], map["w" := Readable("a")], [], map[], true);
    assert AccountAt(st, st.accounts, "a") == Some("w");
    assert Lookup(st, ResolveWalletName(st, "a")) == Ok(Info("w", "a", ECDSA, false));
  }

  /** A shared name is refused, and nothing else leads to it, even when one entry is unreadable. */
  lemma SharedNeverResolves(st: Store, name: string, x: string)
    requires Shared(st, name)
    ensures Lookup(st, name) == Err(Ambiguous) && ResolveAddress(st, name) == Err(Ambiguous)
    ensures Lookup(st, x).Ok? ==> Lookup(st, x).value.name != name
    ensures ResolveWalletName(st, x) == name ==> x == name
    ensures ResolveAddress(st, x).Ok? && !LooksLikeAddress(x) ==>
              x != name && LookupByName(st, x) == Ok(Stored(st, x, x in st.pq))
  {
  }

  /**
   * An address that is held, but only under shared names, is refused and maps to
   * no name: as ambiguous, or as unreadable when its only holders are in a
   * post-quantum folder that cannot be listed.
   */
  lemma SharedAddressRefused(st: Store, x: string)
    requires Consistent(st) && LooksLikeAddress(x) && x !in st.ecdsa && x !in st.pq
    requires exists n :: HoldsECDSA(st, n, x) || HoldsPQ(st, n, x)
    requires forall n :: HoldsECDSA(st, n, x) || HoldsPQ(st, n, x) ==> Shared(st, n)
    ensures Lookup(st, x) == if st.listable || exists n :: HoldsECDSA(st, n, x) then Err(Ambiguous) else Err(CannotRead)
    ensures ResolveWalletName(st, x) == x
  {
    if n :| HoldsECDSA(st, n, x) {
      assert n in st.accounts;
    } else {
      var n :| HoldsPQ(st, n, x);
      assert n in st.folders;
    }
  }
}
