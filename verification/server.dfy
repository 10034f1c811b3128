/**
 * The store-level effect of the server's simpler handlers: registration,
 * the product and customer listings, logical product deletion and lookup
 * of a customer by phone. Each handler is a function of the store; the SQL
 * text, the connection pool and the HTTP layer are outside the model.
 */
module Server {
  import opened Tables
  import opened Sorting

  datatype ApiError = EmailTaken | InsertFailed | CustomerNotFound

  /** What a handler leaves behind: the new store and the reply. */
  datatype Reply<T> = Reply(store: Store, result: Result<T, ApiError>)

  /** The columns registration returns: every user column but the hash. */
  datatype UserView = UserView(id: int, name: string, email: string, role: string)

  const DefaultRole := "administrador"

  // --------------------------------------------------------------- filters

  function ActiveProducts(ps: seq<Product>): (r: seq<Product>)
    ensures forall p :: p in r <==> p in ps && p.active
  {
    if |ps| == 0 then []
    else (if ps[0].active then [ps[0]] else []) + ActiveProducts(ps[1..])
  }

  function ActiveCustomers(cs: seq<Customer>): (r: seq<Customer>)
    ensures forall c :: c in r <==> c in cs && c.active
  {
    if |cs| == 0 then []
    else (if cs[0].active then [cs[0]] else []) + ActiveCustomers(cs[1..])
  }

  predicate EmailInUse(users: seq<User>, email: string) {
    exists k :: 0 <= k < |users| && users[k].email == email
  }

  predicate UniqueEmails(users: seq<User>) {
    forall i, j :: 0 <= i < j < |users| ==> users[i].email != users[j].email
  }

  // --------------------------------------------------------------- handlers

  /**
   * `GET /api/productos`: exactly the active products, ordered by name,
   * each active row listed once.
   */
  function ListProducts(s: Store): (r: seq<Product>)
    ensures SortedBy(r, ProductName)
    ensures multiset(r) == multiset(ActiveProducts(s.products))
    ensures forall p :: p in r <==> p in s.products && p.active
  {
    var r := SortBy(ActiveProducts(s.products), ProductName);
    assert forall p :: p in r <==> p in multiset(r);
    r
  }

  /** `GET /api/clientes`: exactly the active customers, ordered by name. */
  function ListCustomers(s: Store): (r: seq<Customer>)
    ensures SortedBy(r, CustomerName)
    ensures multiset(r) == multiset(ActiveCustomers(s.customers))
    ensures forall c :: c in r <==> c in s.customers && c.active
  {
    var r := SortBy(ActiveCustomers(s.customers), CustomerName);
    assert forall c :: c in r <==> c in multiset(r);
    r
  }

  /**
   * `DELETE /api/productos/:id`: a logical delete. Every row with that id
   * has its active flag cleared; no row is removed and nothing else in the
   * store changes. An unknown id changes nothing and is not an error.
   */
  function DeleteProduct(s: Store, id: int): (r: Store)
    ensures r.users == s.users && r.customers == s.customers
    ensures r.orders == s.orders && r.details == s.details
    ensures |r.products| == |s.products|
    ensures forall k :: 0 <= k < |s.products| ==>
      r.products[k] == if s.products[k].id == id then s.products[k].(active := false) else s.products[k]
  {
    s.(products := Deactivate(s.products, id))
  }

  function Deactivate(ps: seq<Product>, id: int): (r: seq<Product>)
    ensures |r| == |ps|
    ensures forall k :: 0 <= k < |ps| ==>
      r[k] == if ps[k].id == id then ps[k].(active := false) else ps[k]
  {
    if |ps| == 0 then []
    else [if ps[0].id == id then ps[0].(active := false) else ps[0]] + Deactivate(ps[1..], id)
  }

  /**
   * `GET /api/clientes/telefono/:telefono`: the first active customer with
   * that phone, or not-found when there is none.
   */
  function FindByPhone(s: Store, phone: string): (r: Result<Customer, ApiError>)
    ensures r.Ok? ==> r.value in s.customers && r.value.phone == phone && r.value.active
    ensures r.Err? ==> r.error == CustomerNotFound
    ensures r.Err? <==> forall c :: c in s.customers ==> !(c.phone == phone && c.active)
    ensures r.Ok? ==> exists k :: (0 <= k < |s.customers| && s.customers[k] == r.value &&
      forall j :: 0 <= j < k ==> !(s.customers[j].phone == phone && s.customers[j].active))
  {
    match FirstByPhone(s.customers, phone)
    case Some(k) => Ok(s.customers[k])
    case None => Err(CustomerNotFound)
  }

  function FirstByPhone(cs: seq<Customer>, phone: string): (r: Option<nat>)
    ensures r.Some? ==> (r.value < |cs| && cs[r.value].phone == phone && cs[r.value].active &&
      forall j :: 0 <= j < r.value ==> !(cs[j].phone == phone && cs[j].active))
    ensures r.None? ==> forall j :: 0 <= j < |cs| ==> !(cs[j].phone == phone && cs[j].active)
  {
    if |cs| == 0 then None
    else if cs[0].phone == phone && cs[0].active then Some(0)
    else match FirstByPhone(cs[1..], phone)
      case Some(k) => assert cs[1..][k] == cs[k + 1]; Some(k + 1)
      case None => assert forall j :: 1 <= j < |cs| ==> cs[j] == cs[1..][j - 1]; None
  }

  /** `rol || 'administrador'`: a missing or empty role falls back to the default. */
  function EffectiveRole(role: Option<string>): (r: string)
    ensures role.Some? && role.value != "" ==> r == role.value
    ensures role.None? || role.value == "" ==> r == DefaultRole
  {
    match role
    case Some(v) => if v == "" then DefaultRole else v
    case None => DefaultRole
  }

  /**
   * `POST /api/register`: an email already present is refused with the
   * store unchanged. Otherwise the user is inserted: exactly one user is
   * appended, carrying the given name, email and hashed password and the
   * effective role, unless the database rejects the insert, which answers
   * an error and leaves the store unchanged. The reply carries the new
   * user's id, name, email and role, never the hash. Which inserts the database
   * rejects depends on schema constraints outside this model, so the
   * caller supplies it as `insertRejected`. `newId` is the identifier the
   * database assigns; `passwordHash` stands for the bcrypt hash of the
   * submitted password.
   */
  function Register(s: Store, name: string, email: string, passwordHash: string,
                    role: Option<string>, newId: int, insertRejected: bool): (r: Reply<UserView>)
    ensures r.result == Err(EmailTaken) <==> EmailInUse(s.users, email)
    ensures r.result == Err(InsertFailed) <==> !EmailInUse(s.users, email) && insertRejected
    ensures r.result.Ok? <==> !EmailInUse(s.users, email) && !insertRejected
    ensures r.result.Err? ==> r.store == s
    ensures r.result.Ok? ==>
      r.store == s.(users := s.users + [User(newId, name, email, passwordHash, EffectiveRole(role))]) &&
      r.result.value == UserView(newId, name, email, EffectiveRole(role))
  {
    if EmailInUse(s.users, email) then
      Reply(s, Err(EmailTaken))
    else if insertRejected then
      Reply(s, Err(InsertFailed))
    else
      var u := User(newId, name, email, passwordHash, EffectiveRole(role));
      Reply(s.(users := s.users + [u]), Ok(UserView(u.id, u.name, u.email, u.role)))
  }

  // ---------------------------------------------------------------- lemmas

  /**
   * After a delete, the listing is the old listing without the deleted
   * product; every other product is still listed.
   */
  lemma DeleteHidesOnlyThatProduct(s: Store, id: int)
    ensures forall p :: p in ListProducts(DeleteProduct(s, id)) <==> p in ListProducts(s) && p.id != id
  {
    var r := DeleteProduct(s, id);
    forall p
      ensures p in r.products && p.active <==> p in s.products && p.active && p.id != id
    {
      if p in r.products && p.active {
        var k :| 0 <= k < |r.products| && r.products[k] == p;
        assert s.products[k] == p;
      }
      if p in s.products && p.active && p.id != id {
        var k :| 0 <= k < |s.products| && s.products[k] == p;
        assert r.products[k] == p;
      }
    }
  }

  /** Deleting twice is deleting once. */
  lemma DeleteIdempotent(s: Store, id: int)
    ensures DeleteProduct(DeleteProduct(s, id), id) == DeleteProduct(s, id)
  {
    var once := DeleteProduct(s, id);
    var twice := DeleteProduct(once, id);
    assert twice.products == once.products;
  }

  /** Registration keeps the email column unique. */
  lemma RegisterKeepsEmailsUnique(s: Store, name: string, email: string, passwordHash: string,
                                  role: Option<string>, newId: int, insertRejected: bool)
    requires UniqueEmails(s.users)
    ensures UniqueEmails(Register(s, name, email, passwordHash, role, newId, insertRejected).store.users)
  {
    var r := Register(s, name, email, passwordHash, role, newId, insertRejected);
    if r.result.Ok? {
      var us := r.store.users;
      forall i, j | 0 <= i < j < |us|
        ensures us[i].email != us[j].email
      {
        if j == |s.users| {
          assert us[i] == s.users[i];
        }
      }
    }
  }

  /**
   * Once a registration has not failed at the insert, the email is taken:
   * a second registration with it is always refused.
   */
  lemma RegisterTwiceRejected(s: Store, name: string, email: string, passwordHash: string,
                              role: Option<string>, newId: int, rejected: bool,
                              name2: string, passwordHash2: string, role2: Option<string>, newId2: int,
                              rejected2: bool)
    ensures var first := Register(s, name, email, passwordHash, role, newId, rejected);
            first.result != Err(InsertFailed) ==>
              Register(first.store, name2, email, passwordHash2, role2, newId2, rejected2).result == Err(EmailTaken)
  {
    var r := Register(s, name, email, passwordHash, role, newId, rejected);
    if r.result.Ok? {
      assert r.store.users[|s.users|].email == email;
    }
  }
}
