/** The admin endpoints (src/api/admin.rs): listing users and deleting a recipe. Both
    run only after the `Admin` extractor has accepted the caller. */
module AdminApi {
  import opened Values
  import opened AppErrors
  import Users
  import Admins
  import Recipes

  /** One entry of `GET /api/admin/users`: a user without its password. */
  datatype UserViewResponseEntry = UserViewResponseEntry(id: Uuid, username: string, email: string, isAdmin: bool)

  /** The per-user `map` of `get_users`. */
  function Entries(users: seq<Users.User>): (es: seq<UserViewResponseEntry>)
    ensures |es| == |users|
    ensures forall i :: 0 <= i < |users| ==>
              es[i].id == users[i].id && es[i].username == users[i].username
              && es[i].email == users[i].email && es[i].isAdmin == users[i].isAdmin
  {
    if users == [] then []
    else
      var u := users[0];
      [UserViewResponseEntry(u.id, u.username, u.email, u.isAdmin)] + Entries(users[1..])
  }

  /** The listing reveals nothing about passwords: users that differ only in their
      stored hashes are listed identically. */
  lemma {:induction false} EntriesIgnorePasswords(a: seq<Users.User>, b: seq<Users.User>)
    requires |a| == |b|
    requires forall i :: 0 <= i < |a| ==> a[i].(password := b[i].password) == b[i]
    ensures Entries(a) == Entries(b)
  {
    if a != [] {
      assert a[0].(password := b[0].password) == b[0];
      EntriesIgnorePasswords(a[1..], b[1..]);
    }
  }

  /** `get_users`, given the extracted admin and the outcome of `User::get_all` (which
      is not part of this model): one entry per user, in the same order. */
  function GetUsers(admin: Result<Admins.Admin>, all: Result<seq<Users.User>>): (r: Result<seq<UserViewResponseEntry>>)
    ensures admin.Err? ==> r == Err(admin.error)
    ensures admin.Ok? && all.Err? ==> r == Err(all.error)
    ensures r.Ok? <==> admin.Ok? && all.Ok?
    ensures r.Ok? ==> |r.value| == |all.value|
                      && forall i :: 0 <= i < |all.value| ==>
                           r.value[i] == UserViewResponseEntry(all.value[i].id, all.value[i].username,
                                                               all.value[i].email, all.value[i].isAdmin)
  {
    if admin.Err? then Err(admin.error)
    else if all.Err? then Err(all.error)
    else Ok(Entries(all.value))
  }

  /** `delete_recipe`: reject a caller the `Admin` extractor rejected, then look the
      recipe up and delete it. Neither a rejected caller nor an unknown id reaches the
      delete. */
  method DeleteRecipe(store: Recipes.RecipeStore, admin: Result<Admins.Admin>, id: Uuid,
                      readFault: Recipes.ReadFault, deleteFault: bool) returns (r: Result<()>)
    requires store.Valid()
    modifies store
    ensures store.Valid()
    ensures admin.Err? ==> r == Err(admin.error)
    ensures admin.Ok? && old(Recipes.FromUuid(store.recipes, store.ingredients, store.steps, id, readFault)).Err? ==>
              r == Err(NotFoundError("Recipe not found"))
    ensures r.Ok? <==> admin.Ok? && !deleteFault
                       && old(Recipes.FromUuid(store.recipes, store.ingredients, store.steps, id, readFault)).Ok?
    ensures r.Err? ==> store.recipes == old(store.recipes) && store.ingredients == old(store.ingredients)
                       && store.steps == old(store.steps)
    ensures r.Ok? ==> store.recipes == Recipes.WithoutId(old(store.recipes), id)
    ensures r.Ok? ==> forall f :: Recipes.FromUuid(store.recipes, store.ingredients, store.steps, id, f).Err?
    ensures r.Ok? ==> forall other, f :: other != id ==>
              Recipes.FromUuid(store.recipes, store.ingredients, store.steps, other, f)
                == old(Recipes.FromUuid(store.recipes, store.ingredients, store.steps, other, f))
  {
    if admin.Err? {
      return Err(admin.error);
    }
    var found := Recipes.FromUuid(store.recipes, store.ingredients, store.steps, id, readFault);
    if found.Err? {
      return Err(found.error);
    }
    r := store.Delete(found.value, deleteFault);
  }
}
