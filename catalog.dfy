/**
 The entries of the two external catalogs (the recipe catalog and the drinks
 catalog) as the server reads them, JavaScript truthiness of a string that may
 be null, and the two pure text helpers built on top of them: the
 instructions preview and the "keep only truthy values" filter.
 */
module Catalog {

  datatype Option<+T> = None | Some(value: T)

  /** A meal of the recipe catalog, reduced to the fields the server reads.
      Only the instructions may be null in a way that changes the outcome
      (calling `substring` on null throws). */
  datatype Meal = Meal(
    idMeal: string,
    strMeal: string,
    strCategory: string,
    strArea: string,
    strInstructions: Option<string>)

  /** A drink of the drinks catalog, reduced to the fields the server reads. */
  datatype Drink = Drink(
    strDrink: string,
    strAlcoholic: string,
    strIngredient1: Option<string>,
    strIngredient2: Option<string>)

  /** JavaScript truthiness of a string that may be null or missing:
      only a present, non-empty string is truthy. */
  predicate Truthy(v: Option<string>): (b: bool)
    ensures b <==> v != None && v != Some("")
  {
    v.Some? && v.value != ""
  }

  /** `list[0]` of a catalog reply whose list may be null: nothing when the
      list is null or empty, its first entry otherwise. */
  function FirstEntry<T>(entries: Option<seq<T>>): (r: Option<T>)
    ensures r == None <==> entries == None || entries == Some([])
    ensures r != None ==> entries != None && r.value == entries.value[0]
  {
    if entries.Some? && |entries.value| > 0 then Some(entries.value[0]) else None
  }

  /** The truncation marker appended to every preview. */
  const Ellipsis := "..."

  /** Preview length of a stored favorite's instructions. */
  const FavoritePreviewLength := 100

  /** Preview length of the pairing's main-course instructions. */
  const PairingPreviewLength := 150

  /** What a preview of `text` cut at `n` characters is: a prefix of `text` of
      at most `n` characters, which is all of `text` when it is shorter than
      `n`, followed by the marker. */
  ghost predicate IsPreview(text: string, n: nat, r: string)
  {
    && |r| >= |Ellipsis|
    && r[|r| - |Ellipsis|..] == Ellipsis
    && var kept := r[..|r| - |Ellipsis|];
       && kept <= text
       && |kept| <= n
       && (|kept| == n || kept == text)
  }

  /** `text.substring(0, n) + '...'` (substring clamps an end past the text). */
  function Preview(text: string, n: nat): (r: string)
    ensures IsPreview(text, n, r)
    ensures |r| <= n + |Ellipsis|
  {
    text[..if |text| < n then |text| else n] + Ellipsis
  }

  /** IsPreview pins the preview down: any string meeting it is Preview's. */
  lemma PreviewIsDetermined(text: string, n: nat, r: string)
    requires IsPreview(text, n, r)
    ensures r == Preview(text, n)
  {
  }

  /** `values.filter(v => v)` over strings that may be null: the truthy
      values, in their original order. */
  function KeepTruthy(values: seq<Option<string>>): (r: seq<string>)
    ensures |r| <= |values|
    ensures forall i :: 0 <= i < |r| ==> r[i] != "" && Some(r[i]) in values
  {
    if values == [] then []
    else (if Truthy(values[0]) then [values[0].value] else []) + KeepTruthy(values[1..])
  }

  /** A string is kept exactly when it occurs in the input as a truthy value. */
  lemma {:induction false} KeepTruthyMembers(values: seq<Option<string>>, s: string)
    ensures s in KeepTruthy(values) <==> s != "" && Some(s) in values
  {
    if values != [] {
      KeepTruthyMembers(values[1..], s);
      assert values == [values[0]] + values[1..];
    }
  }

  /** The filter keeps order: filtering a concatenation concatenates the
      filtered parts. */
  lemma {:induction false} KeepTruthyAppend(a: seq<Option<string>>, b: seq<Option<string>>)
    ensures KeepTruthy(a + b) == KeepTruthy(a) + KeepTruthy(b)
  {
    if a == [] {
      assert a + b == b;
    } else {
      assert (a + b)[1..] == a[1..] + b;
      KeepTruthyAppend(a[1..], b);
    }
  }

  /** Every truthy value survives and every falsy one is dropped. */
  lemma {:induction false} KeepTruthyAll(values: seq<Option<string>>)
    ensures (forall i :: 0 <= i < |values| ==> Truthy(values[i])) <==> |KeepTruthy(values)| == |values|
  {
    if values != [] {
      KeepTruthyAll(values[1..]);
      if !Truthy(values[0]) {
        assert |KeepTruthy(values)| == |KeepTruthy(values[1..])| <= |values| - 1;
      } else {
        assert forall i :: 1 <= i < |values| ==> values[i] == values[1..][i - 1];
      }
    }
  }
}
