/** The row of category buttons of CategoryList.js. */
module CategoryList {
  import opened Text

  /** `capitalizeFirstLetter`: `s.charAt(0).toUpperCase() + s.slice(1)`. */
  function CapitalizeFirstLetter(s: string): (r: string)
    ensures |r| == |s|
    ensures s != [] ==> r[0] == ToUpper(s[0]) && r[1..] == s[1..]
  {
    if s == [] then [] else UpperAscii(s[..1]) + s[1..]
  }

  /** Capitalising twice is capitalising once. */
  lemma CapitalizeIdempotent(s: string)
    ensures CapitalizeFirstLetter(CapitalizeFirstLetter(s)) == CapitalizeFirstLetter(s)
  {
    if s != [] {
      var r := CapitalizeFirstLetter(s);
      var rr := CapitalizeFirstLetter(r);
      assert rr[0] == r[0];
      assert rr == [rr[0]] + rr[1..] && r == [r[0]] + r[1..];
    }
  }

  /** What one rendered button shows and does: its React `key`, its text,
      whether it has the selected style, and the argument its press passes to
      `onSelectCategory`. */
  datatype Button = Button(key: string, text: string, selected: bool, pressArgument: string)

  function ButtonFor(category: string, selectedCategories: seq<string>): Button {
    Button(category, CapitalizeFirstLetter(category), category in selectedCategories, category)
  }

  /** `categories.map(...)`. */
  function Buttons(categories: seq<string>, selectedCategories: seq<string>): (buttons: seq<Button>)
    ensures |buttons| == |categories|
    ensures forall i :: 0 <= i < |buttons| ==>
              buttons[i].key == categories[i] && buttons[i].pressArgument == categories[i] &&
              buttons[i].text == CapitalizeFirstLetter(categories[i]) &&
              (buttons[i].selected <==> categories[i] in selectedCategories)
  {
    if categories == [] then []
    else [ButtonFor(categories[0], selectedCategories)] + Buttons(categories[1..], selectedCategories)
  }

  /** A category shows as selected exactly when it is both listed and selected. */
  lemma {:induction false} SelectedCategories(categories: seq<string>, selectedCategories: seq<string>, c: string)
    ensures (exists i :: 0 <= i < |categories| && Buttons(categories, selectedCategories)[i].selected &&
                        Buttons(categories, selectedCategories)[i].key == c)
            <==> c in categories && c in selectedCategories
  {
    var buttons := Buttons(categories, selectedCategories);
    if c in categories && c in selectedCategories {
      var i :| 0 <= i < |categories| && categories[i] == c;
      assert buttons[i].selected && buttons[i].key == c;
    }
  }

  /** Only membership in the selection matters: its order and repetitions do not. */
  lemma {:induction false} SelectionAsSet(categories: seq<string>, s1: seq<string>, s2: seq<string>)
    requires forall c :: c in s1 <==> c in s2
    ensures Buttons(categories, s1) == Buttons(categories, s2)
  {
    var b1 := Buttons(categories, s1);
    var b2 := Buttons(categories, s2);
    assert forall i :: 0 <= i < |b1| ==> b1[i] == b2[i];
  }
}
