/** The recipe aggregate store (src/models/recipe.rs) over in-memory tables: the
    `recipes` table of metadata rows and the `recipe_ingredients` and `recipe_steps`
    tables of positioned child rows. */
module Recipes {
  import opened Values
  import opened AppErrors

  // ---------------------------------------------------------------------------
  // Rows and records
  // ---------------------------------------------------------------------------

  /** A row of `recipes`. */
  datatype RecipeMetadata = RecipeMetadata(
    id: Uuid,
    title: string,
    description: string,
    author: Uuid,
    imageId: Option<Uuid>,
    timeEstimateActive: Option<Decimal>,
    timeEstimateTotal: Option<Decimal>,
    sourceUrl: Option<string>,
    createdAt: Timestamp,
    editedAt: Timestamp)

  datatype RecipeIngredient = RecipeIngredient(quantity: Decimal, unit: string, name: string)

  datatype RecipeStep = RecipeStep(description: string, imageId: Option<Uuid>)

  /** A row of `recipe_ingredients` or `recipe_steps`: the owning recipe, the position
      `num`, and the columns read back into the item. */
  datatype ChildRow<T> = ChildRow(recipeId: Uuid, num: int, item: T)

  /** The aggregate: metadata (the title read back as `name`) and its ordered children. */
  datatype Recipe = Recipe(
    id: Uuid,
    name: string,
    description: string,
    author: Uuid,
    imageId: Option<Uuid>,
    timeEstimateActive: Option<Decimal>,
    timeEstimateTotal: Option<Decimal>,
    createdAt: Timestamp,
    editedAt: Timestamp,
    sourceUrl: Option<string>,
    ingredients: seq<RecipeIngredient>,
    steps: seq<RecipeStep>)

  datatype RecipeCreation = RecipeCreation(
    name: string,
    description: string,
    author: Uuid,
    imageId: Option<Uuid>,
    timeEstimateActive: Option<Decimal>,
    timeEstimateTotal: Option<Decimal>,
    sourceUrl: Option<string>,
    ingredients: seq<RecipeIngredient>,
    steps: seq<RecipeStep>)

  /** The orders `list_brief` offers, with discriminants 1 to 4 (see SortCode). */
  datatype RecipeListSort = DateAscending | DateDescending | NameAscending | NameDescending

  /** Which statement of `create` the database rejects, if any. Statement 0 is the
      metadata insert, 1 + i the insert of ingredient i, and 1 + n + j the insert of
      step j when there are n ingredients. */
  datatype CreateFault = NoWriteFault | BeginFails | InsertFails(statement: nat) | CommitFails

  /** Which query of `from_uuid` the database rejects, if any. */
  datatype ReadFault = NoReadFault | MetadataQueryFails | IngredientsQueryFails | StepsQueryFails

  // ---------------------------------------------------------------------------
  // Reading the aggregate back: `from_uuid`
  // ---------------------------------------------------------------------------

  /** `fetch_one` on `recipes WHERE id = $1`: the first row with that id. */
  function FindRecipe(recipes: seq<RecipeMetadata>, id: Uuid): (r: Option<RecipeMetadata>)
    ensures r.Some? ==> r.value in recipes && r.value.id == id
    ensures r.None? <==> forall i :: 0 <= i < |recipes| ==> recipes[i].id != id
    ensures r.Some? <==> exists i :: 0 <= i < |recipes| && recipes[i].id == id
  {
    if recipes == [] then None
    else if recipes[0].id == id then Some(recipes[0])
    else FindRecipe(recipes[1..], id)
  }

  /** The child rows `WHERE recipe_id = $1`, in table order. */
  function RowsOf<T(!new)>(rows: seq<ChildRow<T>>, id: Uuid): (r: seq<ChildRow<T>>)
    ensures forall row :: row in r <==> row in rows && row.recipeId == id
  {
    if rows == [] then []
    else (if rows[0].recipeId == id then [rows[0]] else []) + RowsOf(rows[1..], id)
  }

  // ---------------------------------------------------------------------------
  // Sorting under an ORDER BY clause
  // ---------------------------------------------------------------------------

  /** `le` orders any two values and is transitive: the relation an ORDER BY clause
      sorts by, where values with equal keys may come in either order. */
  ghost predicate TotalPreorder<T(!new)>(le: (T, T) -> bool)
  {
    && (forall a, b :: le(a, b) || le(b, a))
    && (forall a, b, c :: le(a, b) && le(b, c) ==> le(a, c))
  }

  ghost predicate SortedWith<T>(le: (T, T) -> bool, s: seq<T>)
  {
    forall i, j :: 0 <= i < j < |s| ==> le(s[i], s[j])
  }

  function InsertWith<T>(le: (T, T) -> bool, x: T, s: seq<T>): (r: seq<T>)
    ensures multiset(r) == multiset(s) + multiset{x}
  {
    if s == [] || le(x, s[0]) then [x] + s
    else
      assert s == [s[0]] + s[1..];
      [s[0]] + InsertWith(le, x, s[1..])
  }

  lemma {:induction false} InsertWithSorted<T(!new)>(le: (T, T) -> bool, x: T, s: seq<T>)
    requires TotalPreorder(le) && SortedWith(le, s)
    ensures SortedWith(le, InsertWith(le, x, s))
  {
    if s == [] {
    } else if le(x, s[0]) {
      var r := [x] + s;
      forall i, j | 0 <= i < j < |r| ensures le(r[i], r[j]) {
        if i == 0 && j > 1 {
          assert le(x, s[0]) && le(s[0], s[j - 1]);
        }
      }
    } else {
      var tail := InsertWith(le, x, s[1..]);
      InsertWithSorted(le, x, s[1..]);
      forall k | 0 <= k < |tail| ensures le(s[0], tail[k]) {
        assert tail[k] in multiset(s[1..]) + multiset{x};
        if tail[k] != x {
          assert tail[k] in s[1..];
        }
      }
    }
  }

  /** An insertion sort under `le`: a sorted permutation of the input, and one of the
      orders the database may return when keys tie. */
  function SortWith<T(!new)>(le: (T, T) -> bool, s: seq<T>): (r: seq<T>)
    requires TotalPreorder(le)
    ensures multiset(r) == multiset(s)
    ensures SortedWith(le, r)
  {
    if s == [] then []
    else
      var rest := SortWith(le, s[1..]);
      InsertWithSorted(le, s[0], rest);
      assert s == [s[0]] + s[1..];
      InsertWith(le, s[0], rest)
  }

  /** Input that is already sorted is returned as it is. */
  lemma {:induction false} SortWithOfSorted<T(!new)>(le: (T, T) -> bool, s: seq<T>)
    requires TotalPreorder(le) && SortedWith(le, s)
    ensures SortWith(le, s) == s
  {
    if s != [] {
      SortWithOfSorted(le, s[1..]);
    }
  }

  // ---------------------------------------------------------------------------
  // Child rows `ORDER BY num`
  // ---------------------------------------------------------------------------

  /** `ORDER BY num`: the position order of child rows. */
  predicate ByNum<T>(a: ChildRow<T>, b: ChildRow<T>)
  {
    a.num <= b.num
  }

  lemma ByNumTotalPreorder<T(!new)>()
    ensures TotalPreorder<ChildRow<T>>(ByNum)
  {
  }

  /** Rows in non-decreasing order of position. */
  ghost predicate NumSorted<T(!new)>(rows: seq<ChildRow<T>>)
  {
    SortedWith(ByNum, rows)
  }

  /** `ORDER BY num`: the rows sorted by position. */
  function OrderByNum<T(!new)>(rows: seq<ChildRow<T>>): (r: seq<ChildRow<T>>)
    ensures multiset(r) == multiset(rows)
    ensures NumSorted(r)
  {
    ByNumTotalPreorder<T>();
    SortWith(ByNum, rows)
  }

  /** Rows already in position order are returned as they are. */
  lemma OrderByNumOfSorted<T(!new)>(rows: seq<ChildRow<T>>)
    requires NumSorted(rows)
    ensures OrderByNum(rows) == rows
  {
    ByNumTotalPreorder<T>();
    SortWithOfSorted(ByNum, rows);
  }

  /** The items the rows carry, in row order. */
  function Items<T(!new)>(rows: seq<ChildRow<T>>): (r: seq<T>)
    ensures |r| == |rows|
  {
    seq(|rows|, i requires 0 <= i < |rows| => rows[i].item)
  }

  /** The items are those of a position-ordered permutation of the rows. */
  ghost predicate ReadInPositionOrder<T(!new)>(rows: seq<ChildRow<T>>, items: seq<T>)
  {
    exists sorted :: multiset(sorted) == multiset(rows) && NumSorted(sorted) && Items(sorted) == items
  }

  lemma OrderByNumReadsInOrder<T(!new)>(rows: seq<ChildRow<T>>)
    ensures ReadInPositionOrder(rows, Items(OrderByNum(rows)))
  {
    var sorted := OrderByNum(rows);
    assert multiset(sorted) == multiset(rows) && NumSorted(sorted) && Items(sorted) == Items(sorted);
  }

  /** The aggregate assembled from its metadata row and its children. */
  function Assemble(m: RecipeMetadata, ingredients: seq<RecipeIngredient>, steps: seq<RecipeStep>): Recipe
  {
    Recipe(id := m.id, name := m.title, description := m.description, author := m.author,
           imageId := m.imageId, timeEstimateActive := m.timeEstimateActive,
           timeEstimateTotal := m.timeEstimateTotal, createdAt := m.createdAt,
           editedAt := m.editedAt, sourceUrl := m.sourceUrl,
           ingredients := ingredients, steps := steps)
  }

  /** The metadata part of an aggregate, with `name` stored back as `title`. */
  function MetadataOf(r: Recipe): RecipeMetadata
  {
    RecipeMetadata(id := r.id, title := r.name, description := r.description, author := r.author,
                   imageId := r.imageId, timeEstimateActive := r.timeEstimateActive,
                   timeEstimateTotal := r.timeEstimateTotal, sourceUrl := r.sourceUrl,
                   createdAt := r.createdAt, editedAt := r.editedAt)
  }

  /** `Recipe::from_uuid`: the metadata row, then the ingredient and step rows of the
      recipe ordered by position. A missing row and every failed query are reported
      alike as NotFound "Recipe not found". */
  function FromUuid(recipes: seq<RecipeMetadata>, ingredients: seq<ChildRow<RecipeIngredient>>,
                    steps: seq<ChildRow<RecipeStep>>, id: Uuid, fault: ReadFault): (r: Result<Recipe>)
    ensures r.Err? ==> r.error == NotFoundError("Recipe not found")
    ensures r.Err? <==> fault != NoReadFault || forall i :: 0 <= i < |recipes| ==> recipes[i].id != id
    ensures r.Ok? ==> r.value.id == id && FindRecipe(recipes, id) == Some(MetadataOf(r.value))
    ensures r.Ok? ==> ReadInPositionOrder(RowsOf(ingredients, id), r.value.ingredients)
    ensures r.Ok? ==> ReadInPositionOrder(RowsOf(steps, id), r.value.steps)
  {
    var metadata := FindRecipe(recipes, id);
    if fault == MetadataQueryFails || metadata.None? then Err(NotFoundError("Recipe not found"))
    else if fault == IngredientsQueryFails then Err(NotFoundError("Recipe not found"))
    else if fault == StepsQueryFails then Err(NotFoundError("Recipe not found"))
    else
      var ingredientRows := OrderByNum(RowsOf(ingredients, id));
      var stepRows := OrderByNum(RowsOf(steps, id));
      OrderByNumReadsInOrder(RowsOf(ingredients, id));
      OrderByNumReadsInOrder(RowsOf(steps, id));
      assert fault == NoReadFault;
      assert metadata.value in recipes && metadata.value.id == id;
      Ok(Assemble(metadata.value, Items(ingredientRows), Items(stepRows)))
  }

  // ---------------------------------------------------------------------------
  // Writing the aggregate: the rows `create` inserts
  // ---------------------------------------------------------------------------

  /** The metadata row `create` inserts; both timestamps take the server's `now`. */
  function NewMetadata(id: Uuid, data: RecipeCreation, now: Timestamp): RecipeMetadata
  {
    RecipeMetadata(id := id, title := data.name, description := data.description,
                   author := data.author, imageId := data.imageId,
                   timeEstimateActive := data.timeEstimateActive,
                   timeEstimateTotal := data.timeEstimateTotal, sourceUrl := data.sourceUrl,
                   createdAt := now, editedAt := now)
  }

  /** The child rows for `items`, each at its enumeration index. */
  function Numbered<T(!new)>(id: Uuid, items: seq<T>): (r: seq<ChildRow<T>>)
    ensures |r| == |items|
  {
    seq(|items|, i requires 0 <= i < |items| => ChildRow(id, i, items[i]))
  }

  /** Rows written at their enumeration index come back from `ORDER BY num` as written. */
  lemma NumberedInOrder<T(!new)>(id: Uuid, items: seq<T>)
    ensures OrderByNum(Numbered(id, items)) == Numbered(id, items)
  {
    var rows := Numbered(id, items);
    forall i, j | 0 <= i < j < |rows| ensures ByNum(rows[i], rows[j]) {
      assert rows[i].num == i && rows[j].num == j;
    }
    OrderByNumOfSorted(rows);
  }

  /** No row of any table mentions the id. */
  ghost predicate Unused(recipes: seq<RecipeMetadata>, ingredients: seq<ChildRow<RecipeIngredient>>,
                         steps: seq<ChildRow<RecipeStep>>, id: Uuid)
  {
    && (forall i :: 0 <= i < |recipes| ==> recipes[i].id != id)
    && (forall i :: 0 <= i < |ingredients| ==> ingredients[i].recipeId != id)
    && (forall i :: 0 <= i < |steps| ==> steps[i].recipeId != id)
  }

  /** The aggregate carries exactly what `create` was given, under the new id. */
  ghost predicate Echoes(r: Recipe, id: Uuid, data: RecipeCreation, now: Timestamp)
  {
    && r.id == id
    && r.name == data.name
    && r.description == data.description
    && r.author == data.author
    && r.imageId == data.imageId
    && r.timeEstimateActive == data.timeEstimateActive
    && r.timeEstimateTotal == data.timeEstimateTotal
    && r.sourceUrl == data.sourceUrl
    && r.createdAt == now && r.editedAt == now
    && r.ingredients == data.ingredients
    && r.steps == data.steps
  }

  lemma {:induction false} RowsOfAppend<T(!new)>(a: seq<ChildRow<T>>, b: seq<ChildRow<T>>, id: Uuid)
    ensures RowsOf(a + b, id) == RowsOf(a, id) + RowsOf(b, id)
  {
    if a == [] {
      assert a + b == b;
    } else {
      assert (a + b)[1..] == a[1..] + b;
      RowsOfAppend(a[1..], b, id);
    }
  }

  lemma {:induction false} RowsOfNone<T(!new)>(rows: seq<ChildRow<T>>, id: Uuid)
    requires forall i :: 0 <= i < |rows| ==> rows[i].recipeId != id
    ensures RowsOf(rows, id) == []
  {
    if rows != [] {
      RowsOfNone(rows[1..], id);
    }
  }

  lemma {:induction false} RowsOfAll<T(!new)>(rows: seq<ChildRow<T>>, id: Uuid)
    requires forall i :: 0 <= i < |rows| ==> rows[i].recipeId == id
    ensures RowsOf(rows, id) == rows
  {
    if rows != [] {
      RowsOfAll(rows[1..], id);
      assert rows == [rows[0]] + rows[1..];
    }
  }

  /** Writing items at their enumeration index and reading them back `ORDER BY num`
      gives the items in their original order, whatever other recipes' rows the table
      holds. */
  lemma NumberedReadsBack<T(!new)>(rows: seq<ChildRow<T>>, id: Uuid, items: seq<T>)
    requires forall i :: 0 <= i < |rows| ==> rows[i].recipeId != id
    ensures Items(OrderByNum(RowsOf(rows + Numbered(id, items), id))) == items
  {
    RowsOfNumbered(rows, id, items);
    NumberedInOrder(id, items);
    assert Items(Numbered(id, items)) == items;
  }

  /** The rows of the new recipe are exactly the rows just written. */
  lemma RowsOfNumbered<T(!new)>(rows: seq<ChildRow<T>>, id: Uuid, items: seq<T>)
    requires forall i :: 0 <= i < |rows| ==> rows[i].recipeId != id
    ensures RowsOf(rows + Numbered(id, items), id) == Numbered(id, items)
  {
    var newRows := Numbered(id, items);
    RowsOfAppend(rows, newRows, id);
    RowsOfNone(rows, id);
    RowsOfAll(newRows, id);
  }

  lemma {:induction false} FindRecipeAppend(recipes: seq<RecipeMetadata>, m: RecipeMetadata)
    requires forall i :: 0 <= i < |recipes| ==> recipes[i].id != m.id
    ensures FindRecipe(recipes + [m], m.id) == Some(m)
  {
    if recipes != [] {
      assert (recipes + [m])[1..] == recipes[1..] + [m];
      FindRecipeAppend(recipes[1..], m);
    }
  }

  /** The order-preserving round trip of `create` followed by `from_uuid`: after the
      rows of a new recipe are written under an unused id, reading that id back yields
      the creation data, ingredients and steps in the order given. */
  lemma CreatedRecipeReadsBack(recipes: seq<RecipeMetadata>, ingredients: seq<ChildRow<RecipeIngredient>>,
                               steps: seq<ChildRow<RecipeStep>>, data: RecipeCreation, id: Uuid, now: Timestamp)
    requires Unused(recipes, ingredients, steps, id)
    ensures var r := FromUuid(recipes + [NewMetadata(id, data, now)], ingredients + Numbered(id, data.ingredients),
                              steps + Numbered(id, data.steps), id, NoReadFault);
            r.Ok? && Echoes(r.value, id, data, now)
  {
    var m := NewMetadata(id, data, now);
    FindRecipeAppend(recipes, m);
    NumberedReadsBack(ingredients, id, data.ingredients);
    NumberedReadsBack(steps, id, data.steps);
    assert FromUuid(recipes + [m], ingredients + Numbered(id, data.ingredients), steps + Numbered(id, data.steps),
                    id, NoReadFault) == Ok(Assemble(m, data.ingredients, data.steps));
  }

  // ---------------------------------------------------------------------------
  // Deleting: `DELETE FROM recipes WHERE id = $1`
  // ---------------------------------------------------------------------------

  /** The `recipes` table without the rows whose id is `id`. */
  function WithoutId(recipes: seq<RecipeMetadata>, id: Uuid): (r: seq<RecipeMetadata>)
    ensures forall m :: m in r <==> m in recipes && m.id != id
  {
    if recipes == [] then []
    else (if recipes[0].id == id then [] else [recipes[0]]) + WithoutId(recipes[1..], id)
  }

  /** A child table without the rows of recipe `id` (what a cascading delete removes). */
  function WithoutRowsOf<T(!new)>(rows: seq<ChildRow<T>>, id: Uuid): (r: seq<ChildRow<T>>)
    ensures forall row :: row in r <==> row in rows && row.recipeId != id
  {
    if rows == [] then []
    else (if rows[0].recipeId == id then [] else [rows[0]]) + WithoutRowsOf(rows[1..], id)
  }

  lemma {:induction false} FindRecipeWithout(recipes: seq<RecipeMetadata>, id: Uuid, other: Uuid)
    requires other != id
    ensures FindRecipe(WithoutId(recipes, id), other) == FindRecipe(recipes, other)
  {
    if recipes != [] {
      FindRecipeWithout(recipes[1..], id, other);
      var rest := WithoutId(recipes[1..], id);
      if recipes[0].id == id {
        assert WithoutId(recipes, id) == rest;
      } else {
        assert WithoutId(recipes, id) == [recipes[0]] + rest;
        assert ([recipes[0]] + rest)[1..] == rest;
      }
    }
  }

  lemma {:induction false} RowsOfWithout<T(!new)>(rows: seq<ChildRow<T>>, id: Uuid, other: Uuid)
    requires other != id
    ensures RowsOf(WithoutRowsOf(rows, id), other) == RowsOf(rows, other)
  {
    if rows != [] {
      RowsOfWithout(rows[1..], id, other);
      var rest := WithoutRowsOf(rows[1..], id);
      if rows[0].recipeId == id {
        assert WithoutRowsOf(rows, id) == rest;
      } else {
        assert WithoutRowsOf(rows, id) == [rows[0]] + rest;
        assert ([rows[0]] + rest)[1..] == rest;
      }
    }
  }

  /** After the delete, reading the deleted id fails with NotFound, whatever the
      child tables still hold. */
  lemma DeletedRecipeNotFound(recipes: seq<RecipeMetadata>, ingredients: seq<ChildRow<RecipeIngredient>>,
                              steps: seq<ChildRow<RecipeStep>>, id: Uuid, fault: ReadFault)
    ensures FromUuid(WithoutId(recipes, id), ingredients, steps, id, fault) == Err(NotFoundError("Recipe not found"))
  {
    var rest := WithoutId(recipes, id);
    assert forall i :: 0 <= i < |rest| ==> rest[i] in rest;
  }

  /** The delete leaves every other recipe reading back exactly as before, whether or
      not the child rows of the deleted recipe are removed with it. */
  lemma DeleteKeepsOthers(recipes: seq<RecipeMetadata>, ingredients: seq<ChildRow<RecipeIngredient>>,
                          steps: seq<ChildRow<RecipeStep>>, id: Uuid, cascade: bool, other: Uuid, fault: ReadFault)
    requires other != id
    ensures var ingredients' := if cascade then WithoutRowsOf(ingredients, id) else ingredients;
            var steps' := if cascade then WithoutRowsOf(steps, id) else steps;
            FromUuid(WithoutId(recipes, id), ingredients', steps', other, fault)
              == FromUuid(recipes, ingredients, steps, other, fault)
  {
    FindRecipeWithout(recipes, id, other);
    RowsOfWithout(ingredients, id, other);
    RowsOfWithout(steps, id, other);
  }

  // ---------------------------------------------------------------------------
  // Listing: `list_brief`
  // ---------------------------------------------------------------------------

  /** The discriminant `ordering as i64` handed to the query. */
  function SortCode(ordering: RecipeListSort): (code: int)
    ensures 1 <= code <= 4
  {
    match ordering
    case DateAscending => 1
    case DateDescending => 2
    case NameAscending => 3
    case NameDescending => 4
  }

  /** Text order by code point, which is also the byte order of the UTF-8 encoding. */
  predicate TextLe(a: string, b: string)
  {
    if a == [] then true
    else if b == [] then false
    else if a[0] != b[0] then a[0] < b[0]
    else TextLe(a[1..], b[1..])
  }

  lemma {:induction false} TextLeTotal(a: string, b: string)
    ensures TextLe(a, b) || TextLe(b, a)
  {
    if a != [] && b != [] && a[0] == b[0] {
      TextLeTotal(a[1..], b[1..]);
    }
  }

  lemma {:induction false} TextLeTransitive(a: string, b: string, c: string)
    requires TextLe(a, b) && TextLe(b, c)
    ensures TextLe(a, c)
  {
    if a != [] && b != [] && c != [] && a[0] == b[0] && b[0] == c[0] {
      TextLeTransitive(a[1..], b[1..], c[1..]);
    }
  }

  /** The query's ORDER BY clause for discriminant `code`: `a` may be listed before
      `b`. A CASE arm whose test fails is NULL for every row and orders nothing, so
      only the arm selected by `code` constrains the order, and rows with equal keys
      may come in either order. */
  predicate Precedes(code: int, a: RecipeMetadata, b: RecipeMetadata)
  {
    && (code == 1 ==> a.createdAt <= b.createdAt)
    && (code == 2 ==> a.createdAt >= b.createdAt)
    && (code == 3 ==> TextLe(a.title, b.title))
    && (code == 4 ==> TextLe(b.title, a.title))
  }

  lemma PrecedesTotal(code: int, a: RecipeMetadata, b: RecipeMetadata)
    ensures Precedes(code, a, b) || Precedes(code, b, a)
  {
    TextLeTotal(a.title, b.title);
  }

  lemma PrecedesTransitive(code: int, a: RecipeMetadata, b: RecipeMetadata, c: RecipeMetadata)
    requires Precedes(code, a, b) && Precedes(code, b, c)
    ensures Precedes(code, a, c)
  {
    if code == 3 {
      TextLeTransitive(a.title, b.title, c.title);
    } else if code == 4 {
      TextLeTransitive(c.title, b.title, a.title);
    }
  }

  /** The ORDER BY clause for discriminant `code` as a relation. */
  function Clause(code: int): (RecipeMetadata, RecipeMetadata) -> bool
  {
    (a, b) => Precedes(code, a, b)
  }

  lemma ClauseTotalPreorder(code: int)
    ensures TotalPreorder(Clause(code))
  {
    forall a, b ensures Clause(code)(a, b) || Clause(code)(b, a) {
      PrecedesTotal(code, a, b);
    }
    forall a, b, c | Clause(code)(a, b) && Clause(code)(b, c) ensures Clause(code)(a, c) {
      PrecedesTransitive(code, a, b, c);
    }
  }

  ghost predicate SortedBy(code: int, rows: seq<RecipeMetadata>)
  {
    forall i, j :: 0 <= i < j < |rows| ==> Precedes(code, rows[i], rows[j])
  }

  /** A sort of the rows under the ORDER BY clause; one of the orders the query may
      return when keys tie. */
  function Sort(code: int, rows: seq<RecipeMetadata>): (r: seq<RecipeMetadata>)
    ensures multiset(r) == multiset(rows)
    ensures SortedBy(code, r)
  {
    ClauseTotalPreorder(code);
    var r := SortWith(Clause(code), rows);
    assert forall i, j :: 0 <= i < j < |r| ==> Clause(code)(r[i], r[j]);
    r
  }

  /** The first k rows of a sorted sequence come no later than any row after them. */
  lemma PrefixComesFirst(code: int, s: seq<RecipeMetadata>, k: nat)
    requires SortedBy(code, s) && k <= |s|
    ensures multiset(s[..k]) <= multiset(s)
    ensures forall i, x :: 0 <= i < k && x in multiset(s) - multiset(s[..k]) ==> Precedes(code, s[i], x)
  {
    assert s == s[..k] + s[k..];
    assert multiset(s) == multiset(s[..k]) + multiset(s[k..]);
    forall i, x | 0 <= i < k && x in multiset(s) - multiset(s[..k]) ensures Precedes(code, s[i], x) {
      assert x in s[k..];
      var j :| 0 <= j < |s[k..]| && s[k..][j] == x;
      assert s[k + j] == x;
    }
  }

  /** `max_count as i64`: the two's-complement reading of a u64. */
  function AsI64(x: u64): (r: int)
    ensures -0x8000_0000_0000_0000 <= r < 0x8000_0000_0000_0000
    ensures (x as int) < 0x8000_0000_0000_0000 ==> r == x as int
    ensures (x as int) >= 0x8000_0000_0000_0000 ==> r < 0
  {
    if (x as int) < 0x8000_0000_0000_0000 then x as int else x as int - 0x1_0000_0000_0000_0000
  }

  /** What a sorted sequence means for each selectable ordering. */
  lemma SortedByOrdering(ordering: RecipeListSort, s: seq<RecipeMetadata>)
    requires SortedBy(SortCode(ordering), s)
    ensures ordering == DateAscending ==> forall i, j :: 0 <= i < j < |s| ==> s[i].createdAt <= s[j].createdAt
    ensures ordering == DateDescending ==> forall i, j :: 0 <= i < j < |s| ==> s[i].createdAt >= s[j].createdAt
    ensures ordering == NameAscending ==> forall i, j :: 0 <= i < j < |s| ==> TextLe(s[i].title, s[j].title)
    ensures ordering == NameDescending ==> forall i, j :: 0 <= i < j < |s| ==> TextLe(s[j].title, s[i].title)
  {
    forall i, j | 0 <= i < j < |s| ensures Precedes(SortCode(ordering), s[i], s[j]) {
    }
  }

  /** `Recipe::list_brief`: metadata rows only, ordered by the selected clause, at most
      `max_count` of them. A count of 2^63 or more becomes a negative LIMIT, which the
      database rejects, so it fails like any other query error. */
  function ListBrief(recipes: seq<RecipeMetadata>, maxCount: u64, ordering: RecipeListSort, fault: bool)
    : (r: Result<seq<RecipeMetadata>>)
    ensures r.Err? <==> fault || (maxCount as int) >= 0x8000_0000_0000_0000
    ensures r.Err? ==> r.error == InternalError("Error fetching recipes")
    ensures r.Ok? ==> |r.value| == if (maxCount as int) < |recipes| then maxCount as int else |recipes|
    ensures r.Ok? ==> multiset(r.value) <= multiset(recipes)
    ensures r.Ok? && ordering == DateAscending ==>
              forall i, j :: 0 <= i < j < |r.value| ==> r.value[i].createdAt <= r.value[j].createdAt
    ensures r.Ok? && ordering == DateDescending ==>
              forall i, j :: 0 <= i < j < |r.value| ==> r.value[i].createdAt >= r.value[j].createdAt
    ensures r.Ok? && ordering == NameAscending ==>
              forall i, j :: 0 <= i < j < |r.value| ==> TextLe(r.value[i].title, r.value[j].title)
    ensures r.Ok? && ordering == NameDescending ==>
              forall i, j :: 0 <= i < j < |r.value| ==> TextLe(r.value[j].title, r.value[i].title)
    ensures r.Ok? ==> forall i, x :: 0 <= i < |r.value| && x in multiset(recipes) - multiset(r.value) ==>
              Precedes(SortCode(ordering), r.value[i], x)
  {
    var limit := AsI64(maxCount);
    if fault || limit < 0 then Err(InternalError("Error fetching recipes"))
    else
      var code := SortCode(ordering);
      var sorted := Sort(code, recipes);
      var k := if limit < |sorted| then limit else |sorted|;
      PrefixComesFirst(code, sorted, k);
      SortedByOrdering(ordering, sorted[..k]);
      Ok(sorted[..k])
  }

  // ---------------------------------------------------------------------------
  // The store
  // ---------------------------------------------------------------------------

  /** Recipe ids are unique (the primary key of `recipes`). */
  ghost predicate UniqueIds(recipes: seq<RecipeMetadata>)
  {
    forall i, j :: 0 <= i < j < |recipes| ==> recipes[i].id != recipes[j].id
  }

  /** The statement `create` fails at, if one of its inserts is rejected. */
  predicate InsertFailsAt(data: RecipeCreation, fault: CreateFault)
  {
    fault.InsertFails? && fault.statement <= |data.ingredients| + |data.steps|
  }

  /** `create` reaches its commit and the commit succeeds. */
  predicate Commits(data: RecipeCreation, fault: CreateFault)
  {
    fault != BeginFails && fault != CommitFails && !InsertFailsAt(data, fault)
  }

  /** One `for (num, item) in items.iter().enumerate()` loop of `create`: insert each
      item at position `num` into the transaction's view of a child table, where the
      insert of item `num` is statement `first + num`. Stops at the first rejected
      insert. */
  method InsertNumbered<T(!new)>(table: seq<ChildRow<T>>, id: Uuid, items: seq<T>, first: nat, fault: CreateFault)
    returns (ok: bool, written: seq<ChildRow<T>>)
    ensures ok <==> !(fault.InsertFails? && first <= fault.statement < first + |items|)
    ensures ok ==> written == table + Numbered(id, items)
  {
    written := table;
    for num := 0 to |items|
      invariant written == table + Numbered(id, items[..num])
      invariant !(fault.InsertFails? && first <= fault.statement < first + num)
    {
      if fault == InsertFails(first + num) {
        return false, written;
      }
      assert Numbered(id, items[..num + 1]) == Numbered(id, items[..num]) + [ChildRow(id, num, items[num])];
      written := written + [ChildRow(id, num, items[num])];
    }
    assert items[..|items|] == items;
    ok := true;
  }

  class RecipeStore {
    /** Whether the child tables' foreign keys delete a recipe's rows with it; the
        schema is not part of this model, so the store is parameterised by it. */
    const cascades: bool
    var recipes: seq<RecipeMetadata>
    var ingredients: seq<ChildRow<RecipeIngredient>>
    var steps: seq<ChildRow<RecipeStep>>

    ghost predicate Valid()
      reads this
    {
      UniqueIds(recipes)
    }

    constructor (cascades: bool)
      ensures this.cascades == cascades
      ensures recipes == [] && ingredients == [] && steps == []
      ensures Valid()
    {
      this.cascades := cascades;
      recipes, ingredients, steps := [], [], [];
    }

    /** `Recipe::create`: inside one transaction, insert the metadata row, then each
        ingredient and each step at its enumeration index; commit; read the recipe
        back. The tables change only at the commit, so a failed statement leaves no
        row of this call behind. No field of `data` is validated. */
    method Create(data: RecipeCreation, id: Uuid, now: Timestamp, fault: CreateFault, reload: ReadFault)
      returns (r: Result<Recipe>)
      requires Valid()
      requires Unused(recipes, ingredients, steps, id)
      modifies this
      ensures Valid()
      ensures fault == BeginFails || fault == CommitFails ==> r == Err(InternalError("Internal db error"))
      ensures InsertFailsAt(data, fault) ==> r == Err(InternalError("Error creating recipe"))
      ensures !Commits(data, fault) ==>
                recipes == old(recipes) && ingredients == old(ingredients) && steps == old(steps)
      ensures Commits(data, fault) ==>
                && recipes == old(recipes) + [NewMetadata(id, data, now)]
                && ingredients == old(ingredients) + Numbered(id, data.ingredients)
                && steps == old(steps) + Numbered(id, data.steps)
                && r == FromUuid(recipes, ingredients, steps, id, reload)
      ensures Commits(data, fault) && reload == NoReadFault ==> r.Ok? && Echoes(r.value, id, data, now)
    {
      if fault == BeginFails {
        return Err(InternalError("Internal db error"));
      }
      // The transaction's view of each table; nothing is visible before the commit.
      var txRecipes, txIngredients, txSteps := recipes, ingredients, steps;
      if fault == InsertFails(0) {
        return Err(InternalError("Error creating recipe"));
      }
      txRecipes := txRecipes + [NewMetadata(id, data, now)];
      var ingredientsOk, stepsOk;
      ingredientsOk, txIngredients := InsertNumbered(txIngredients, id, data.ingredients, 1, fault);
      if !ingredientsOk {
        return Err(InternalError("Error creating recipe"));
      }
      stepsOk, txSteps := InsertNumbered(txSteps, id, data.steps, 1 + |data.ingredients|, fault);
      if !stepsOk {
        return Err(InternalError("Error creating recipe"));
      }
      if fault == CommitFails {
        return Err(InternalError("Internal db error"));
      }
      assert Commits(data, fault);
      CreatedRecipeReadsBack(recipes, ingredients, steps, data, id, now);
      AppendKeepsUnique(recipes, NewMetadata(id, data, now));
      recipes, ingredients, steps := txRecipes, txIngredients, txSteps;
      r := FromUuid(recipes, ingredients, steps, id, reload);
    }

    /** `Recipe::delete`: remove the metadata row with the recipe's id. The child rows
        go with it exactly when the schema cascades. */
    method Delete(recipe: Recipe, fault: bool) returns (r: Result<()>)
      requires Valid()
      modifies this
      ensures Valid()
      ensures fault ==> r == Err(InternalError("Deletion failed"))
                        && recipes == old(recipes) && ingredients == old(ingredients) && steps == old(steps)
      ensures !fault ==> r == Ok(()) && recipes == WithoutId(old(recipes), recipe.id)
      ensures !fault ==> |recipes| == |old(recipes)| - if FindRecipe(old(recipes), recipe.id).Some? then 1 else 0
      ensures !fault && cascades ==>
                ingredients == WithoutRowsOf(old(ingredients), recipe.id)
                && steps == WithoutRowsOf(old(steps), recipe.id)
      ensures !fault && !cascades ==> ingredients == old(ingredients) && steps == old(steps)
      ensures !fault ==> forall f :: FromUuid(recipes, ingredients, steps, recipe.id, f).Err?
      ensures !fault ==> forall other, f :: other != recipe.id ==>
                FromUuid(recipes, ingredients, steps, other, f)
                  == FromUuid(old(recipes), old(ingredients), old(steps), other, f)
    {
      if fault {
        return Err(InternalError("Deletion failed"));
      }
      var id := recipe.id;
      var ingredients' := if cascades then WithoutRowsOf(ingredients, id) else ingredients;
      var steps' := if cascades then WithoutRowsOf(steps, id) else steps;
      forall f {
        DeletedRecipeNotFound(recipes, ingredients', steps', id, f);
      }
      forall other, f | other != id {
        DeleteKeepsOthers(recipes, ingredients, steps, id, cascades, other, f);
      }
      WithoutIdKeepsUnique(recipes, id);
      WithoutIdRemovesOne(recipes, id);
      recipes := WithoutId(recipes, id);
      if cascades {
        ingredients := WithoutRowsOf(ingredients, id);
        steps := WithoutRowsOf(steps, id);
      }
      r := Ok(());
    }
  }

  lemma AppendKeepsUnique(recipes: seq<RecipeMetadata>, m: RecipeMetadata)
    requires UniqueIds(recipes)
    requires forall i :: 0 <= i < |recipes| ==> recipes[i].id != m.id
    ensures UniqueIds(recipes + [m])
  {
  }

  lemma {:induction false} WithoutIdKeepsUnique(recipes: seq<RecipeMetadata>, id: Uuid)
    requires UniqueIds(recipes)
    ensures UniqueIds(WithoutId(recipes, id))
  {
    if recipes != [] {
      WithoutIdKeepsUnique(recipes[1..], id);
      var rest := WithoutId(recipes[1..], id);
      if recipes[0].id != id {
        forall k | 0 <= k < |rest| ensures rest[k].id != recipes[0].id {
          assert rest[k] in recipes[1..];
        }
      }
    }
  }

  /** With unique ids, the delete removes exactly one metadata row when the id is
      present and none otherwise. */
  lemma {:induction false} WithoutIdRemovesOne(recipes: seq<RecipeMetadata>, id: Uuid)
    requires UniqueIds(recipes)
    ensures |WithoutId(recipes, id)| == |recipes| - if FindRecipe(recipes, id).Some? then 1 else 0
  {
    if recipes != [] {
      WithoutIdRemovesOne(recipes[1..], id);
      if recipes[0].id == id {
        assert forall i :: 0 <= i < |recipes[1..]| ==> recipes[1..][i].id != id by {
          forall i | 0 <= i < |recipes[1..]| ensures recipes[1..][i].id != id {
            assert recipes[1..][i] == recipes[i + 1];
          }
        }
      }
    }
  }
}
