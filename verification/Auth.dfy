// pkg/tunnel/auth.go: client credentials and the registry of Auth v2 identities.
module Auth {
  import opened Bytes
  import opened Text

  datatype ClientAuth = ClientAuth(psk: text, clientID: text, clientSecret: text) {
    predicate UsesV2() {
      Trim(clientID) != [] || Trim(clientSecret) != []
    }

    predicate Valid() {
      if UsesV2() then ValidClientID(clientID) && ValidClientSecret(clientSecret)
      else Trim(psk) != []
    }
  }

  /** A client set up for v2 by halves is not valid: it never falls back to the pre-shared key. */
  lemma HalfIsInvalid(auth: ClientAuth)
    ensures AllSpace(auth.clientID) != AllSpace(auth.clientSecret) ==> !auth.Valid()
    ensures AllSpace(auth.clientID) && AllSpace(auth.clientSecret) ==> (auth.Valid() <==> !AllSpace(auth.psk))
    ensures auth.Valid() ==> (auth.UsesV2() <==> !AllSpace(auth.clientID))
  {
    BlankIff(auth.clientID);
    BlankIff(auth.clientSecret);
    BlankIff(auth.psk);
  }

  predicate IDByte(c: byte) {
    97 <= c <= 122 || 65 <= c <= 90 || IsDigit(c) || c in {45, 46, 95}
  }

  predicate ValidClientID(id: text) {
    8 <= |Trim(id)| <= 128 && forall c :: c in Trim(id) ==> IDByte(c)
  }

  predicate ValidClientSecret(secret: text) {
    24 <= |Trim(secret)| <= 256
  }

  /** expires_at: empty, a moment, or text time.Parse rejects. */
  datatype Expiry = Never | At(moment: int) | Unparsable

  datatype Credential = Credential(id: text, name: text, secret: text, enabled: bool, expires: Expiry)

  type Registry = map<text, Credential>

  function Trimmed(c: Credential): Credential {
    c.(id := Trim(c.id), secret := Trim(c.secret))
  }

  /** Trimmed: an id of 8 to 128 letters, digits, dots, hyphens and underscores, and a secret of 24 to 256 octets. */
  predicate Acceptable(c: Credential) {
    var id, secret := Trim(c.id), Trim(c.secret);
    && 8 <= |id| <= 128 && 24 <= |secret| <= 256 && c.expires != Unparsable
    && forall b :: b in id ==> 48 <= b <= 57 || 65 <= b <= 90 || 97 <= b <= 122 || b in {45, 46, 95}
  }

  lemma AcceptableIff(c: Credential)
    ensures Acceptable(c)
      <==> ValidClientID(Trim(c.id)) && ValidClientSecret(Trim(c.secret)) && c.expires != Unparsable
  {
    TrimTwice(c.id);
    TrimTwice(c.secret);
  }

  predicate DistinctIDs(credentials: seq<Credential>) {
    forall i, j :: 0 <= i < j < |credentials| ==> Trim(credentials[i].id) != Trim(credentials[j].id)
  }

  /** A registry is built exactly from acceptable credentials with distinct trimmed ids, and
      then holds each of them, trimmed, under its id and nothing else. */
  method NewClientRegistry(credentials: seq<Credential>) returns (registry: Option<Registry>)
    ensures registry.Some? <==>
      DistinctIDs(credentials) && forall c :: c in credentials ==> Acceptable(c)
    ensures registry.Some? ==> |registry.value| == |credentials|
    ensures registry.Some? ==> forall c :: c in credentials ==>
      Trim(c.id) in registry.value && registry.value[Trim(c.id)] == Trimmed(c)
    ensures registry.Some? ==> ValidRegistry(registry.value)
  {
    var clients: Registry := map[];
    ghost var index: map<text, nat> := map[];
    for i := 0 to |credentials|
      invariant |clients| == i && index.Keys == clients.Keys
      invariant forall id :: id in clients ==> index[id] < i && Trim(credentials[index[id]].id) == id
      invariant AllEntered(clients, index, credentials, i)
    {
      var credential := Trimmed(credentials[i]);
      assert credentials[i] in credentials;
      AcceptableIff(credentials[i]);
      if !ValidClientID(credential.id) || !ValidClientSecret(credential.secret) {
        return None;
      }
      if credential.expires == Unparsable {
        return None;
      }
      if credential.id in clients {
        return None;
      }
      EnterNext(clients, index, credentials, i);
      clients := clients[credential.id := credential];
      index := index[credential.id := i];
    }
    registry := Some(clients);
    EnteredEverywhere(clients, index, credentials);
  }

  ghost predicate Entered(clients: Registry, index: map<text, nat>, c: Credential, k: nat) {
    && Acceptable(c)
    && Trim(c.id) in clients && clients[Trim(c.id)] == Trimmed(c)
    && Trim(c.id) in index && index[Trim(c.id)] == k
  }

  ghost predicate AllEntered(clients: Registry, index: map<text, nat>, credentials: seq<Credential>, n: nat)
    requires n <= |credentials|
  {
    forall k :: 0 <= k < n ==> Entered(clients, index, credentials[k], k)
  }

  lemma EnterNext(clients: Registry, index: map<text, nat>, credentials: seq<Credential>, i: nat)
    requires i < |credentials| && AllEntered(clients, index, credentials, i)
    requires Acceptable(credentials[i]) && Trim(credentials[i].id) !in clients
    ensures var c := Trimmed(credentials[i]);
      AllEntered(clients[c.id := c], index[c.id := i], credentials, i + 1)
  {
    var c := Trimmed(credentials[i]);
    forall k | 0 <= k < i + 1
      ensures Entered(clients[c.id := c], index[c.id := i], credentials[k], k)
    {
      assert k < i ==> Entered(clients, index, credentials[k], k);
    }
  }

  lemma EnteredEverywhere(clients: Registry, index: map<text, nat>, credentials: seq<Credential>)
    requires AllEntered(clients, index, credentials, |credentials|)
    requires index.Keys == clients.Keys
    requires forall id :: id in clients ==> index[id] < |credentials| && Trim(credentials[index[id]].id) == id
    ensures ValidRegistry(clients) && DistinctIDs(credentials)
    ensures forall c :: c in credentials ==>
      Acceptable(c) && Trim(c.id) in clients && clients[Trim(c.id)] == Trimmed(c)
  {
    forall id | id in clients
      ensures ValidEntry(id, clients[id])
    {
      var c := credentials[index[id]];
      assert Entered(clients, index, c, index[id]);
      TrimTwice(c.id);
      TrimTwice(c.secret);
    }
    forall i, j | 0 <= i < j < |credentials|
      ensures Trim(credentials[i].id) != Trim(credentials[j].id)
    {
      assert Entered(clients, index, credentials[i], i) && Entered(clients, index, credentials[j], j);
    }
    forall c | c in credentials
      ensures Acceptable(c) && Trim(c.id) in clients && clients[Trim(c.id)] == Trimmed(c)
    {
      var k :| 0 <= k < |credentials| && credentials[k] == c;
      assert Entered(clients, index, credentials[k], k);
    }
  }

  predicate ValidEntry(id: text, c: Credential) {
    && c.id == id && Trim(id) == id && ValidClientID(id)
    && Trim(c.secret) == c.secret && ValidClientSecret(c.secret)
    && c.expires != Unparsable
  }

  predicate ValidRegistry(registry: Registry) {
    forall id :: id in registry ==> ValidEntry(id, registry[id])
  }

  /** The id is registered, switched on, and not expired. */
  predicate Live(registry: Registry, id: text, now: int) {
    && Trim(id) in registry && registry[Trim(id)].enabled
    && (registry[Trim(id)].expires == Never
        || (registry[Trim(id)].expires.At? && now < registry[Trim(id)].expires.moment))
  }

  /** ClientRegistry.Resolve. */
  function Resolve(registry: Registry, id: text, now: int): Option<Credential> {
    if Trim(id) !in registry then None
    else
      var c := registry[Trim(id)];
      if !c.enabled then None
      else if c.expires == Unparsable || (c.expires.At? && now >= c.expires.moment) then None
      else Some(c)
  }
}
