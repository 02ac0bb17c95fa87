/** The fallback colour storage that the composition root registers for the
    editor's data-storage capability: SimpleDataStorage answers "which visual
    attributes does item K have" from a fixed table, and DataStorageService hands
    out that one storage for every storage key. */
module DataStorage {
  import opened Colors
  import opened Wrappers

  /** An entry of a resource dictionary: a solid-colour brush, or the raw colour
      that brush was made from. */
  datatype Value = Brush(color: Color) | Raw(color: Color)

  /** The two role labels a lookup can fill in. */
  const Background: string := "Background"
  const Foreground: string := "Foreground"

  /** A setter stores the raw colour under its role label followed by this suffix. */
  const RawSuffix: string := "Color"

  /** The only labels a resolved dictionary can hold. */
  const AttributeLabels: set<string> :=
    {Background, Background + RawSuffix, Foreground, Foreground + RawSuffix}

  /** The four item keys the storage recognises, matched exactly. */
  const TextViewBackground: string := "TextView Background"
  const PlainText: string := "Plain Text"
  const SelectedText: string := "Selected Text"
  const InactiveSelectedText: string := "Inactive Selected Text"

  /** The four labels are pairwise distinct, so the two roles never overwrite each other. */
  lemma LabelsDistinct()
    ensures Background != Foreground
    ensures Background != Foreground + RawSuffix && Foreground != Background + RawSuffix
    ensures Background + RawSuffix != Foreground + RawSuffix
    ensures |AttributeLabels| == 4
  {
    assert Background[0] != Foreground[0];
    assert (Background + RawSuffix)[0] != (Foreground + RawSuffix)[0];
  }

  predicate IsKnownKey(itemKey: string) {
    itemKey == TextViewBackground || itemKey == PlainText ||
    itemKey == SelectedText || itemKey == InactiveSelectedText
  }

  /** The colour each role gets for one item; None leaves the role unset. */
  datatype Policy = Policy(background: Option<Color>, foreground: Option<Color>)

  /** The resolution table as a reference definition: the four known keys take
      system colours, every other key the fixed Beige / MidnightBlue pair. */
  function PolicyFor(itemKey: string): (p: Policy)
    // some role is always set: the lookup never comes back empty
    ensures p.background.Some? || p.foreground.Some?
    // a role carries a system colour exactly when the key is a known one
    ensures p.background.Some? ==> (IsSystemColor(p.background.value) <==> IsKnownKey(itemKey))
    ensures p.foreground.Some? ==> (IsSystemColor(p.foreground.value) <==> IsKnownKey(itemKey))
    // an unknown key sets both roles
    ensures !IsKnownKey(itemKey) ==> p.background.Some? && p.foreground.Some?
  {
    if itemKey == TextViewBackground then Policy(Some(Window), None)
    else if itemKey == PlainText then Policy(None, Some(WindowText))
    else if itemKey == SelectedText then Policy(Some(Highlight), Some(HighlightText))
    else if itemKey == InactiveSelectedText then Policy(Some(Control), Some(ControlText))
    else Policy(Some(Beige), Some(MidnightBlue))
  }

  /** The two entries one setter call writes. */
  function RoleEntries(prefix: string, c: Color): map<string, Value> {
    map[prefix := Brush(c), prefix + RawSuffix := Raw(c)]
  }

  /** The caller's view of one role: the colour of the brush under its label, if any. */
  function ReadRole(entries: map<string, Value>, prefix: string): Option<Color> {
    if prefix in entries && entries[prefix].Brush? then Some(entries[prefix].color) else None
  }

  /** A role is either absent with its raw companion, or present as a brush whose
      raw companion carries the same colour. */
  predicate RolePaired(entries: map<string, Value>, prefix: string) {
    (prefix in entries <==> prefix + RawSuffix in entries) &&
    (prefix in entries ==>
       entries[prefix].Brush? && entries[prefix + RawSuffix] == Raw(entries[prefix].color))
  }

  predicate WellPaired(entries: map<string, Value>) {
    RolePaired(entries, Background) && RolePaired(entries, Foreground)
  }

  /** The dictionary that applying policy p to a fresh, empty dictionary yields. */
  function Attributes(p: Policy): (entries: map<string, Value>)
    ensures entries.Keys <= AttributeLabels
    ensures WellPaired(entries)
    // reading the roles back gives the policy again
    ensures ReadRole(entries, Background) == p.background
    ensures ReadRole(entries, Foreground) == p.foreground
  {
    LabelsDistinct();
    (match p.background
     case Some(c) => RoleEntries(Background, c)
     case None => map[])
    +
    (match p.foreground
     case Some(c) => RoleEntries(Foreground, c)
     case None => map[])
  }

  /** A WPF resource dictionary, reduced to its entries; setters update it in place. */
  class ResourceDictionary {
    var entries: map<string, Value>

    constructor ()
      ensures entries == map[]
    {
      entries := map[];
    }
  }

  /** The closure CreateSetter returns: it captures one dictionary and one role label. */
  class Setter {
    const dict: ResourceDictionary
    const prefix: string

    constructor (dict: ResourceDictionary, prefix: string)
      ensures this.dict == dict && this.prefix == prefix
    {
      this.dict := dict;
      this.prefix := prefix;
    }

    /** Stores a brush of c under the label and c itself under the label plus
        "Color"; every other entry keeps its value. */
    method Invoke(c: Color)
      modifies dict
      ensures dict.entries == old(dict.entries) + RoleEntries(prefix, c)
    {
      dict.entries := dict.entries[prefix := Brush(c)];
      dict.entries := dict.entries[prefix + RawSuffix := Raw(c)];
    }
  }

  /** The storage behind the data-storage capability. It holds no state: every
      lookup builds a new dictionary. */
  class SimpleDataStorage {

    constructor ()
    {
    }

    /** A setter for one role of dict. */
    static method CreateSetter(dict: ResourceDictionary, prefix: string) returns (setter: Setter)
      ensures fresh(setter)
      ensures setter.dict == dict && setter.prefix == prefix
    {
      setter := new Setter(dict, prefix);
    }

    /** Resolves the visual attributes of itemKey into a newly allocated
        dictionary; it reports success for every key, known or not. */
    method TryGetItemValue(itemKey: string) returns (found: bool, itemValue: ResourceDictionary)
      ensures found
      ensures fresh(itemValue)
      ensures itemValue.entries == Attributes(PolicyFor(itemKey))
    {
      LabelsDistinct();
      itemValue := new ResourceDictionary();
      var setBackground := CreateSetter(itemValue, Background);
      var setForeground := CreateSetter(itemValue, Foreground);

      if itemKey == TextViewBackground {
        setBackground.Invoke(Window);
      } else if itemKey == PlainText {
        setForeground.Invoke(WindowText);
      } else if itemKey == SelectedText {
        setBackground.Invoke(Highlight);
        setForeground.Invoke(HighlightText);
      } else if itemKey == InactiveSelectedText {
        setBackground.Invoke(Control);
        setForeground.Invoke(ControlText);
      } else {
        setBackground.Invoke(Beige);
        setForeground.Invoke(MidnightBlue);
      }

      found := true;
    }
  }

  /** The data-storage service: one storage, shared by every storage key. */
  class DataStorageService {
    const instance: SimpleDataStorage

    constructor ()
      ensures fresh(instance)
    {
      instance := new SimpleDataStorage();
    }

    /** The storage for storageKey, which is always the service's one instance. */
    function GetDataStorage(storageKey: string): (storage: SimpleDataStorage)
      ensures storage == instance
    {
      instance
    }
  }

  /** One setter call on any dictionary: both of its entries are present and
      carry the same colour, and every other entry is left as it was. */
  lemma SetterWritesPair(entries: map<string, Value>, prefix: string, c: Color)
    ensures var after := entries + RoleEntries(prefix, c);
      && after.Keys == entries.Keys + {prefix, prefix + RawSuffix}
      && RolePaired(after, prefix)
      && ReadRole(after, prefix) == Some(c)
      && forall k :: k in entries && k != prefix && k != prefix + RawSuffix ==> after[k] == entries[k]
  {
  }

  /** Whatever the key, a lookup yields a well-paired dictionary of two or four
      entries over the four role labels. */
  lemma LookupShape(itemKey: string)
    ensures var entries := Attributes(PolicyFor(itemKey));
      && entries.Keys <= AttributeLabels
      && WellPaired(entries)
      && (|entries| == 2 || |entries| == 4)
  {
  }

  /** "TextView Background" sets only the background pair, to the system window colour. */
  lemma TextViewBackgroundLookup()
    ensures Attributes(PolicyFor(TextViewBackground)) ==
      map[Background := Brush(Window), Background + RawSuffix := Raw(Window)]
  {
  }

  /** "Plain Text" sets only the foreground pair, to the system window-text colour. */
  lemma PlainTextLookup()
    ensures Attributes(PolicyFor(PlainText)) ==
      map[Foreground := Brush(WindowText), Foreground + RawSuffix := Raw(WindowText)]
    ensures Background !in Attributes(PolicyFor(PlainText))
  {
  }

  /** "Selected Text" takes the system highlight pair. */
  lemma SelectedTextLookup()
    ensures Attributes(PolicyFor(SelectedText)) ==
      map[Background := Brush(Highlight), Background + RawSuffix := Raw(Highlight),
          Foreground := Brush(HighlightText), Foreground + RawSuffix := Raw(HighlightText)]
  {
  }

  /** "Inactive Selected Text" takes the system control pair. */
  lemma InactiveSelectedTextLookup()
    ensures Attributes(PolicyFor(InactiveSelectedText)) ==
      map[Background := Brush(Control), Background + RawSuffix := Raw(Control),
          Foreground := Brush(ControlText), Foreground + RawSuffix := Raw(ControlText)]
  {
  }

  /** Any other key gets exactly four entries, Beige behind MidnightBlue, and no
      colour from the system palette. */
  lemma UnknownKeyLookup(itemKey: string)
    requires !IsKnownKey(itemKey)
    ensures var entries := Attributes(PolicyFor(itemKey));
      && entries ==
         map[Background := Brush(Beige), Background + RawSuffix := Raw(Beige),
             Foreground := Brush(MidnightBlue), Foreground + RawSuffix := Raw(MidnightBlue)]
      && |entries| == 4
      && forall key :: key in entries ==> !IsSystemColor(entries[key].color)
  {
  }

  /** A lookup's colours come from the system palette exactly when the key is a known one. */
  lemma SystemColorsIffKnownKey(itemKey: string, attribute: string)
    requires attribute in Attributes(PolicyFor(itemKey))
    ensures IsSystemColor(Attributes(PolicyFor(itemKey))[attribute].color) <==> IsKnownKey(itemKey)
  {
  }

  /** The service returns one and the same storage whatever the storage key. */
  lemma OneStorageForEveryKey(service: DataStorageService, key1: string, key2: string)
    ensures service.GetDataStorage(key1) == service.GetDataStorage(key2)
  {
  }
}
