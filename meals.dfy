/** The meal planner page (src/app/meals/page.tsx): the ingredient list
    parsed from the comma-separated form field, and the row inserted for a
    new meal. */
module Meals {
  import opened Common

  /** The characters `String.prototype.trim` removes: the ECMAScript
      WhiteSpace and LineTerminator code points. */
  predicate IsJsSpace(c: char) {
    var n := c as int;
    n in {0x09, 0x0A, 0x0B, 0x0C, 0x0D, 0x20, 0xA0, 0x1680, 0x2028, 0x2029, 0x202F, 0x205F, 0x3000, 0xFEFF}
    || 0x2000 <= n <= 0x200A
  }

  /** Neither end is whitespace. */
  predicate Trimmed(t: string) {
    t == [] || (!IsJsSpace(t[0]) && !IsJsSpace(t[|t| - 1]))
  }

  predicate NoComma(t: string) {
    forall j :: 0 <= j < |t| ==> t[j] != ','
  }

  /** Leading whitespace removed: what is left is a suffix of the input and
      everything dropped is whitespace. */
  function TrimStart(s: string): (r: string)
    ensures |r| <= |s| && r == s[|s| - |r|..]
    ensures forall i :: 0 <= i < |s| - |r| ==> IsJsSpace(s[i])
    ensures r == [] || !IsJsSpace(r[0])
    decreases |s|
  {
    if s != [] && IsJsSpace(s[0]) then TrimStart(s[1..]) else s
  }

  /** Trailing whitespace removed: what is left is a prefix of the input and
      everything dropped is whitespace. */
  function TrimEnd(s: string): (r: string)
    ensures |r| <= |s| && r == s[..|r|]
    ensures forall i :: |r| <= i < |s| ==> IsJsSpace(s[i])
    ensures r == [] || !IsJsSpace(r[|r| - 1])
    decreases |s|
  {
    if s != [] && IsJsSpace(s[|s| - 1]) then TrimEnd(s[..|s| - 1]) else s
  }

  /** `s.trim()`: leading and trailing whitespace removed. */
  function Trim(s: string): (r: string)
    ensures Trimmed(r)
  {
    var t := TrimStart(s);
    var r := TrimEnd(t);
    assert r != [] ==> r[0] == t[0];
    r
  }

  /** What `trim` keeps is the middle of its input, and what it drops at
      either end is whitespace. */
  lemma TrimMiddle(s: string)
    ensures var r := Trim(s);
      var lo := |s| - |TrimStart(s)|;
      && lo + |r| <= |s| && r == s[lo..lo + |r|]
      && (forall i :: 0 <= i < lo ==> IsJsSpace(s[i]))
      && (forall i :: lo + |r| <= i < |s| ==> IsJsSpace(s[i]))
  {
    var t := TrimStart(s);
    var r := TrimEnd(t);
    var lo := |s| - |t|;
    assert t == s[lo..];
    assert r == t[..|r|];
    forall i | lo + |r| <= i < |s| ensures IsJsSpace(s[i]) {
      assert s[i] == t[i - lo];
    }
  }

  /** A slice of a comma-free string is comma-free. */
  lemma SliceNoComma(t: string, lo: int, hi: int)
    requires NoComma(t) && 0 <= lo <= hi <= |t|
    ensures NoComma(t[lo..hi])
  {
    forall j | 0 <= j < hi - lo ensures t[lo..hi][j] != ',' {
      assert t[lo..hi][j] == t[lo + j];
    }
  }

  /** Trimming cannot introduce a comma. */
  lemma TrimNoComma(t: string)
    requires NoComma(t)
    ensures NoComma(Trim(t))
  {
    TrimMiddle(t);
    var lo := |t| - |TrimStart(t)|;
    SliceNoComma(t, lo, lo + |Trim(t)|);
  }

  /** A string with no whitespace at either end is left as it is. */
  lemma TrimTrimmed(t: string)
    requires Trimmed(t)
    ensures Trim(t) == t
  {
  }

  /** Trimming twice is trimming once. */
  lemma TrimIdempotent(s: string)
    ensures Trim(Trim(s)) == Trim(s)
  {
    TrimTrimmed(Trim(s));
  }

  /** `ingredients.split(',').map(i => i.trim())`. */
  function ParseIngredients(s: string): (r: seq<string>)
    ensures |r| == CountChar(s, ',') + 1
    ensures forall i :: 0 <= i < |r| ==> Trimmed(r[i]) && NoComma(r[i])
  {
    var pieces := Split(s, ',');
    SplitShape(s, ',');
    var r := seq(|pieces|, i requires 0 <= i < |pieces| => Trim(pieces[i]));
    forall i | 0 <= i < |r| ensures NoComma(r[i]) {
      assert NoComma(pieces[i]);
      TrimNoComma(pieces[i]);
    }
    r
  }

  /** The ingredients follow the input order: the untrimmed pieces, joined
      with commas, give back the field's text, and the i-th ingredient is
      the i-th piece trimmed. */
  lemma IngredientOrder(s: string)
    ensures var pieces := Split(s, ',');
      && |pieces| == |ParseIngredients(s)|
      && Join(pieces, ',') == s
      && forall i :: 0 <= i < |pieces| ==> ParseIngredients(s)[i] == Trim(pieces[i])
  {
    SplitShape(s, ',');
    JoinSplit(s, ',');
  }

  /** An empty field gives one empty ingredient, not an empty list. */
  lemma EmptyIngredients()
    ensures ParseIngredients("") == [""]
  {
    assert CountChar("", ',') == 0;
  }

  /** A list of ingredients without commas or surrounding whitespace,
      written out with commas, is parsed back to itself. */
  lemma {:induction false} ParseJoin(list: seq<string>)
    requires |list| >= 1
    requires forall i :: 0 <= i < |list| ==> Trimmed(list[i]) && NoComma(list[i])
    ensures ParseIngredients(Join(list, ',')) == list
  {
    forall i, j | 0 <= i < |list| && 0 <= j < |list[i]| ensures list[i][j] != ',' {
      assert NoComma(list[i]);
    }
    SplitJoin(list, ',');
    var r := ParseIngredients(Join(list, ','));
    forall i | 0 <= i < |list| ensures r[i] == list[i] {
      TrimTrimmed(list[i]);
    }
  }

  // ---------------------------------------------------------------------
  // The add-meal form

  datatype MealForm = MealForm(title: string, description: string, mealDate: string, mealType: string, ingredients: string)

  /** The form shown at first and after a successful insert. */
  const EmptyMealForm: MealForm := MealForm("", "", "", "dinner", "")

  const PlaceholderUserId: string := "00000000-0000-0000-0000-000000000000"

  /** The row sent to the `meals` table. */
  datatype MealRow = MealRow(title: string, description: string, mealDate: string, mealType: string,
                             ingredients: seq<string>, userId: string)

  /** `addMeal`'s payload: the text fields copied, the ingredient field parsed. */
  function MealInsertPayload(f: MealForm): (row: MealRow)
    ensures row.title == f.title && row.description == f.description
    ensures row.mealDate == f.mealDate && row.mealType == f.mealType
    ensures row.ingredients == ParseIngredients(f.ingredients)
    ensures |row.ingredients| == CountChar(f.ingredients, ',') + 1
    ensures forall i :: 0 <= i < |row.ingredients| ==> Trimmed(row.ingredients[i]) && NoComma(row.ingredients[i])
    ensures row.userId == PlaceholderUserId
  {
    MealRow(f.title, f.description, f.mealDate, f.mealType, ParseIngredients(f.ingredients), PlaceholderUserId)
  }

  /** The form after the insert: reset on success, kept on error. */
  function MealFormAfterInsert(f: MealForm, inserted: bool): (next: MealForm)
    ensures inserted ==> next.mealType == "dinner" && next.title == "" && next.description == ""
                         && next.mealDate == "" && next.ingredients == ""
    ensures !inserted ==> next == f
  {
    if inserted then EmptyMealForm else f
  }
}
