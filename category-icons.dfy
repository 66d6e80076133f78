/**
 * The category table: each category key with its icon (an opaque token standing
 * for a `lucide-react-native` component) and colour, in declaration order, and
 * the dropdown options derived from it.
 */
module CategoryIcons {
  import opened Wrappers
  import opened Text

  datatype Icon =
    | ShoppingCart | Car | Pill | Gamepad2 | UtensilsCrossed | Home
    | Heart | GraduationCap | Bus | Shirt | CircleDollarSign | HelpCircle

  datatype CategoryStyle = CategoryStyle(icon: Icon, color: string)

  datatype TableEntry = TableEntry(key: string, style: CategoryStyle)

  /** `categoryIcons`, in the order its keys are declared (the order `Object.entries` visits them). */
  const Table: seq<TableEntry> := [
    TableEntry("supermercado", CategoryStyle(ShoppingCart, "#ff9800")),
    TableEntry("veiculo", CategoryStyle(Car, "#2196f3")),
    TableEntry("farmacia", CategoryStyle(Pill, "#f44336")),
    TableEntry("lazer", CategoryStyle(Gamepad2, "#e91e63")),
    TableEntry("alimentacao", CategoryStyle(UtensilsCrossed, "#4caf50")),
    TableEntry("moradia", CategoryStyle(Home, "#9c27b0")),
    TableEntry("saude", CategoryStyle(Heart, "#f44336")),
    TableEntry("educacao", CategoryStyle(GraduationCap, "#3f51b5")),
    TableEntry("transporte", CategoryStyle(Bus, "#607d8b")),
    TableEntry("vestuario", CategoryStyle(Shirt, "#795548")),
    TableEntry("receita", CategoryStyle(CircleDollarSign, "#4caf50")),
    TableEntry("outros", CategoryStyle(HelpCircle, "#9e9e9e"))
  ]

  /** The key of the fallback entry. */
  const FallbackKey := "outros"

  /** The colour given to a category the table does not know. */
  const DefaultColor := "#009688"

  function Keys(): (r: seq<string>)
    ensures |r| == |Table| && forall i :: 0 <= i < |r| ==> r[i] == Table[i].key
  {
    seq(|Table|, i requires 0 <= i < |Table| => Table[i].key)
  }

  /** `categoryIcons[key]`: the style of the first entry with that key, if any. */
  function LookupIn(t: seq<TableEntry>, key: string): (r: Option<CategoryStyle>)
    ensures r.None? <==> forall i :: 0 <= i < |t| ==> t[i].key != key
    ensures r.Some? ==> exists i :: 0 <= i < |t| && t[i].key == key && t[i].style == r.value
  {
    if t == [] then None
    else if t[0].key == key then Some(t[0].style)
    else LookupIn(t[1..], key)
  }

  function Lookup(key: string): Option<CategoryStyle> {
    LookupIn(Table, key)
  }

  /** `categoryConfig?.color || "#009688"`. */
  function ColorFor(name: string): string {
    match Lookup(name)
    case Some(style) => if style.color != "" then style.color else DefaultColor
    case None => DefaultColor
  }

  /** `categoryConfig?.icon || categoryIcons.outros.icon`. */
  function IconFor(name: string): Icon {
    match Lookup(name)
    case Some(style) => style.icon
    case None => HelpCircle
  }

  /** `value.charAt(0).toUpperCase() + value.slice(1)`. */
  function Capitalize(s: string): (r: string)
    ensures |r| == |s|
    ensures s != [] ==> r[0] == UpperChar(s[0]) && r[1..] == s[1..]
  {
    if s == [] then [] else [UpperChar(s[0])] + s[1..]
  }

  /** A dropdown option (`label`, `value`): `icon` and `color` are destructured away. */
  datatype CategoryOption = CategoryOption(caption: string, value: string)

  /** `getCategoryOptions`: one option per table key, in table order. */
  function GetCategoryOptions(): (r: seq<CategoryOption>)
    ensures |r| == |Table|
    ensures forall i :: 0 <= i < |r| ==> r[i].value == Table[i].key && r[i].caption == Capitalize(Table[i].key)
  {
    seq(|Table|, i requires 0 <= i < |Table| => CategoryOption(Capitalize(Table[i].key), Table[i].key))
  }

  /** The table has twelve keys, among them the fallback key. */
  lemma TableShape()
    ensures |Keys()| == 12
    ensures Lookup(FallbackKey) == Some(CategoryStyle(HelpCircle, "#9e9e9e"))
  {
    LookupLast(Table, FallbackKey);
  }

  /** A key found only in the last entry (every earlier key has another length) gets that entry's style. */
  lemma {:induction false} LookupLast(t: seq<TableEntry>, key: string)
    requires |t| > 0 && t[|t| - 1].key == key
    requires forall j :: 0 <= j < |t| - 1 ==> |t[j].key| != |key|
    ensures LookupIn(t, key) == Some(t[|t| - 1].style)
  {
    if |t| > 1 {
      LookupLast(t[1..], key);
    }
  }

  /** No key is declared twice: the first letter and the length already tell the keys apart. */
  lemma TableKeysDistinct()
    ensures forall i, j :: 0 <= i < j < |Table| ==> Table[i].key != Table[j].key
  {
    var sig := seq(|Table|, i requires 0 <= i < |Table| => (Table[i].key[0], |Table[i].key|));
    assert sig == [('s', 12), ('v', 7), ('f', 8), ('l', 5), ('a', 11), ('m', 7), ('s', 5), ('e', 8), ('t', 10), ('v', 9), ('r', 7), ('o', 6)];
  }

  /** A key of the table keeps its own colour and icon; any other name gets the fallback ones. */
  lemma StyleFallback(name: string)
    ensures Lookup(name).Some? ==> ColorFor(name) == Lookup(name).value.color && IconFor(name) == Lookup(name).value.icon
    ensures (forall i :: 0 <= i < |Table| ==> Table[i].key != name) ==> ColorFor(name) == DefaultColor && IconFor(name) == HelpCircle
  {
    if Lookup(name).Some? {
      var i :| 0 <= i < |Table| && Table[i].key == name && Table[i].style == Lookup(name).value;
      assert Table[i].style.color != "";
    }
  }
}
