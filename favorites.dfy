/**
 The in-memory favorites repository: the list of favorite records and the
 identifier counter that the create, list, update and delete handlers of
 /api/favorites work on.
 */
module Favorites {
  import opened Catalog
  import opened Http

  /** One stored favorite: a simplified copy of a recipe-catalog meal. */
  datatype Favorite = Favorite(
    id: int,
    externalId: string,
    name: string,
    category: string,
    instructions: string,
    dateAdded: string)

  const MissingMealName := "O campo 'mealName' eh obrigatório no corpo req."
  const AddFailed := "Erro ao buscar dados da TheMealDB ou adicionar favorito."
  const MissingNewName := "O campo 'newName' é obrigatório para atualização."
  const FavoriteNotFound := "Receita favorita não encontrada."
  const FavoriteNotFoundForRemoval := "Receita favorita não encontrada para exclusão."

  function MealNotFound(mealName: string): (m: string)
  {
    "Receita nao encontrada na TheMealDB: " + mealName
  }

  /** Identifiers strictly increase along the list, so no two records share one. */
  ghost predicate IdsIncreasing(s: seq<Favorite>)
  {
    forall i, j :: 0 <= i < j < |s| ==> s[i].id < s[j].id
  }

  /** `s.findIndex(f => f.id === id)`: the first index holding `id`, or -1. */
  function FindIndex(s: seq<Favorite>, id: int): (k: int)
    ensures -1 <= k < |s|
    ensures k == -1 <==> forall i :: 0 <= i < |s| ==> s[i].id != id
    ensures 0 <= k ==> s[k].id == id && forall i :: 0 <= i < k ==> s[i].id != id
  {
    if s == [] then -1
    else if s[0].id == id then 0
    else
      var k := FindIndex(s[1..], id);
      if k == -1 then -1 else k + 1
  }

  /** `s.filter(f => f.id !== id)`: no survivor has the id (WithoutIdMembers
      says which records survive). */
  function WithoutId(s: seq<Favorite>, id: int): (r: seq<Favorite>)
    ensures |r| <= |s|
    ensures forall i :: 0 <= i < |r| ==> r[i].id != id
  {
    if s == [] then []
    else (if s[0].id != id then [s[0]] else []) + WithoutId(s[1..], id)
  }

  /** The filter keeps exactly the records whose id differs. */
  lemma {:induction false} WithoutIdMembers(s: seq<Favorite>, id: int, f: Favorite)
    ensures f in WithoutId(s, id) <==> f in s && f.id != id
  {
    if s != [] {
      WithoutIdMembers(s[1..], id, f);
      assert s == [s[0]] + s[1..];
    }
  }

  /** The filter never lengthens the list, and leaves its length unchanged
      exactly when no record has the id, in which case the list is unchanged. */
  lemma {:induction false} WithoutIdLength(s: seq<Favorite>, id: int)
    ensures |WithoutId(s, id)| <= |s|
    ensures |WithoutId(s, id)| == |s| <==> FindIndex(s, id) == -1
    ensures FindIndex(s, id) == -1 ==> WithoutId(s, id) == s
  {
    if s != [] {
      WithoutIdLength(s[1..], id);
      if s[0].id != id {
        assert WithoutId(s, id) == [s[0]] + WithoutId(s[1..], id);
        assert FindIndex(s, id) == -1 <==> FindIndex(s[1..], id) == -1;
        assert s == [s[0]] + s[1..];
      }
    }
  }

  /** Removal keeps the survivors in their relative order. */
  lemma {:induction false} WithoutIdIncreasing(s: seq<Favorite>, id: int)
    requires IdsIncreasing(s)
    ensures IdsIncreasing(WithoutId(s, id))
  {
    if s != [] {
      var rest := WithoutId(s[1..], id);
      WithoutIdIncreasing(s[1..], id);
      if s[0].id != id {
        forall j | 0 <= j < |rest| ensures s[0].id < rest[j].id {
          WithoutIdMembers(s[1..], id, rest[j]);
        }
        assert WithoutId(s, id) == [s[0]] + rest;
      }
    }
  }

  /** A suffix of a list with increasing identifiers has them too. */
  lemma IdsIncreasingTail(s: seq<Favorite>)
    requires IdsIncreasing(s) && s != []
    ensures IdsIncreasing(s[1..])
  {
  }

  /** With increasing identifiers, removing the first record's id takes out
      that record alone. */
  lemma WithoutIdAtHead(s: seq<Favorite>)
    requires IdsIncreasing(s) && s != []
    ensures WithoutId(s, s[0].id) == s[1..]
  {
    var t := s[1..];
    forall i | 0 <= i < |t| ensures t[i].id != s[0].id {
      assert t[i] == s[i + 1];
    }
    WithoutIdLength(t, s[0].id);
  }

  /** With unique identifiers, removing the id of the record at `k` takes out
      that record and only it, and the others keep their order. */
  lemma {:induction false} WithoutIdAt(s: seq<Favorite>, k: nat)
    requires IdsIncreasing(s)
    requires k < |s|
    ensures WithoutId(s, s[k].id) == s[..k] + s[k + 1..]
  {
    if k == 0 {
      WithoutIdAtHead(s);
    } else {
      var id := s[k].id;
      var t := s[1..];
      IdsIncreasingTail(s);
      assert t[k - 1] == s[k];
      WithoutIdAt(t, k - 1);
      assert s[0].id < id;
      calc {
        WithoutId(s, id);
        [s[0]] + WithoutId(t, id);
        [s[0]] + (t[..k - 1] + t[k..]);
        { assert [s[0]] + t[..k - 1] == s[..k]; assert t[k..] == s[k + 1..]; }
        s[..k] + s[k + 1..];
      }
    }
  }

  /** The repository: the module-level `favoriteRecipes` list and `nextId`
      counter, owned by one object. `issued` records every identifier ever
      given to a stored record. */
  class Repository {
    var favorites: seq<Favorite>
    var nextId: int
    ghost var issued: set<int>

    /** Identifiers are increasing along the list and all were issued, and
        every issued identifier is below the counter: the counter never
        hands out an identifier twice. */
    ghost predicate Valid()
      reads this
    {
      && 1 <= nextId
      && IdsIncreasing(favorites)
      && (forall i :: 0 <= i < |favorites| ==> favorites[i].id in issued)
      && (forall x :: x in issued ==> 1 <= x < nextId)
    }

    /** The state at process start: no favorites, counter at 1. */
    constructor ()
      ensures Valid()
      ensures favorites == [] && nextId == 1 && issued == {}
    {
      favorites := [];
      nextId := 1;
      issued := {};
    }

    /** POST /api/favorites. `meals` is the `meals` list of the catalog's
        search reply (None when it is null) and `now` the creation timestamp.
        The counter is consumed before the preview is computed, so a meal
        whose instructions are null costs an identifier without being stored. */
    method Add(mealName: Option<string>, meals: Option<seq<Meal>>, now: string) returns (r: Response<Favorite>)
      requires Valid()
      modifies this
      ensures Valid()
      ensures old(issued) <= issued && old(nextId) <= nextId
      ensures !Truthy(mealName) ==>
        r == Response(StatusBadRequest, Message(MissingMealName)) && unchanged(this)
      ensures Truthy(mealName) && FirstEntry(meals).None? ==>
        r == Response(StatusNotFound, Message(MealNotFound(mealName.value))) && unchanged(this)
      ensures Truthy(mealName) && FirstEntry(meals).Some? && FirstEntry(meals).value.strInstructions.None? ==>
        && r == Response(StatusServerError, Message(AddFailed))
        && favorites == old(favorites) && issued == old(issued)
        && nextId == old(nextId) + 1
      ensures Truthy(mealName) && FirstEntry(meals).Some? && FirstEntry(meals).value.strInstructions.Some? ==>
        var meal := FirstEntry(meals).value;
        && r.status == StatusCreated && r.body.Single?
        && var f := r.body.value;
           && f.id == old(nextId) && f.id !in old(issued)
           && f.externalId == meal.idMeal
           && f.name == meal.strMeal
           && f.category == meal.strCategory
           && f.instructions == Preview(meal.strInstructions.value, FavoritePreviewLength)
           && |f.instructions| <= FavoritePreviewLength + |Ellipsis|
           && f.dateAdded == now
           && favorites == old(favorites) + [f]
           && issued == old(issued) + {f.id}
           && nextId == old(nextId) + 1
    {
      if !Truthy(mealName) {
        return Response(StatusBadRequest, Message(MissingMealName));
      }
      var found := FirstEntry(meals);
      if found.None? {
        return Response(StatusNotFound, Message(MealNotFound(mealName.value)));
      }
      var meal := found.value;
      var id := nextId;
      nextId := nextId + 1;
      if meal.strInstructions.None? {
        return Response(StatusServerError, Message(AddFailed));
      }
      var f := Favorite(id, meal.idMeal, meal.strMeal, meal.strCategory,
                        Preview(meal.strInstructions.value, FavoritePreviewLength), now);
      favorites := favorites + [f];
      issued := issued + {id};
      r := Response(StatusCreated, Single(f));
    }

    /** GET /api/favorites: the whole list, in insertion order. */
    method List() returns (r: Response<Favorite>)
      ensures r.status == StatusOk && r.body == Many(favorites)
    {
      r := Response(StatusOk, Many(favorites));
    }

    /** PUT /api/favorites/:id. The new name is checked before the lookup;
        only the `name` of the first record with the id changes. */
    method Rename(id: int, newName: Option<string>) returns (r: Response<Favorite>)
      requires Valid()
      modifies this
      ensures Valid()
      ensures nextId == old(nextId) && issued == old(issued)
      ensures !Truthy(newName) ==>
        r == Response(StatusBadRequest, Message(MissingNewName)) && favorites == old(favorites)
      ensures Truthy(newName) && FindIndex(old(favorites), id) == -1 ==>
        r == Response(StatusNotFound, Message(FavoriteNotFound)) && favorites == old(favorites)
      ensures Truthy(newName) && FindIndex(old(favorites), id) != -1 ==>
        var k := FindIndex(old(favorites), id);
        && |favorites| == |old(favorites)|
        && favorites[k] == old(favorites)[k].(name := newName.value)
        && (forall j :: 0 <= j < |favorites| && j != k ==> favorites[j] == old(favorites)[j])
        && r == Response(StatusOk, Single(favorites[k]))
    {
      if !Truthy(newName) {
        return Response(StatusBadRequest, Message(MissingNewName));
      }
      var k := FindIndex(favorites, id);
      if k == -1 {
        return Response(StatusNotFound, Message(FavoriteNotFound));
      }
      favorites := favorites[k := favorites[k].(name := newName.value)];
      r := Response(StatusOk, Single(favorites[k]));
    }

    /** DELETE /api/favorites/:id: filter the id out, and report not-found
        when the length did not change. */
    method Remove(id: int) returns (r: Response<Favorite>)
      requires Valid()
      modifies this
      ensures Valid()
      ensures nextId == old(nextId) && issued == old(issued)
      ensures favorites == WithoutId(old(favorites), id)
      ensures FindIndex(old(favorites), id) == -1 ==>
        r == Response(StatusNotFound, Message(FavoriteNotFoundForRemoval)) && favorites == old(favorites)
      ensures FindIndex(old(favorites), id) != -1 ==>
        var k := FindIndex(old(favorites), id);
        r == Response(StatusNoContent, Empty) && favorites == old(favorites)[..k] + old(favorites)[k + 1..]
    {
      ghost var before := favorites;
      var initialLength := |favorites|;
      favorites := WithoutId(favorites, id);
      WithoutIdLength(before, id);
      WithoutIdIncreasing(before, id);
      forall i | 0 <= i < |favorites| ensures favorites[i].id in issued {
        WithoutIdMembers(before, id, favorites[i]);
      }
      if FindIndex(before, id) != -1 {
        WithoutIdAt(before, FindIndex(before, id));
      }
      if |favorites| == initialLength {
        return Response(StatusNotFound, Message(FavoriteNotFoundForRemoval));
      }
      r := Response(StatusNoContent, Empty);
    }
  }

  /** A client scenario: the same meal added twice is stored twice under two
      identifiers, as there is no duplicate check. */
  method DuplicateScenario()
  {
    var repo := new Repository();
    var pie := Meal("52805", "Cheese Pie", "Side", "Greek", Some("Preheat the oven."));
    assert Truthy(Some("Cheese Pie")) && FirstEntry(Some([pie])) == Some(pie);
    var r1 := repo.Add(Some("Cheese Pie"), Some([pie]), "t1");
    assert r1.status == StatusCreated && r1.body.value.id == 1;
    var r2 := repo.Add(Some("Cheese Pie"), Some([pie]), "t2");
    assert r2.status == StatusCreated && r2.body.value.id == 2;
    assert |repo.favorites| == 2;
  }

  /** A client scenario: renaming changes only the name of the record. */
  method RenameScenario()
  {
    var repo := new Repository();
    var pie := Meal("52805", "Cheese Pie", "Side", "Greek", Some("Preheat the oven."));
    assert Truthy(Some("Cheese Pie")) && FirstEntry(Some([pie])) == Some(pie);
    var r1 := repo.Add(Some("Cheese Pie"), Some([pie]), "t1");
    assert repo.favorites == [r1.body.value] && r1.body.value.id == 1;
    assert Truthy(Some("Best Cheese Pie")) && FindIndex(repo.favorites, 1) == 0;
    var r2 := repo.Rename(1, Some("Best Cheese Pie"));
    assert r2.status == StatusOk && repo.favorites == [r1.body.value.(name := "Best Cheese Pie")];
  }

  /** A client scenario: a removed identifier is gone for good, and it is not
      handed out again. */
  method RemoveScenario()
  {
    var repo := new Repository();
    var pie := Meal("52805", "Cheese Pie", "Side", "Greek", Some("Preheat the oven."));
    assert Truthy(Some("Cheese Pie")) && FirstEntry(Some([pie])) == Some(pie);
    var r1 := repo.Add(Some("Cheese Pie"), Some([pie]), "t1");
    assert repo.favorites == [r1.body.value] && r1.body.value.id == 1;
    var r2 := repo.Remove(1);
    assert r2.status == StatusNoContent && repo.favorites == [];
    var r3 := repo.Remove(1);
    assert r3.status == StatusNotFound;
    var r4 := repo.Add(Some("Cheese Pie"), Some([pie]), "t2");
    assert r4.body.value.id == 2;
  }
}
