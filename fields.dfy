/**
 * The base field builder: a bag of named attributes set through chained
 * setters, with `getField` filling in `key` and `name` when they are empty
 * and emitting every set public attribute in declaration order.
 *
 * PHP's subclasses become a `Variant` held by the one `Field` class: the
 * variant carries the public attributes `GalleryField` or `RadioField`
 * declares, and its case fixes which extra names `getField` emits.
 */
module Fields {
  import opened Php
  import Naming
  import Gallery
  import Radio

  datatype Option<T> = None | Some(value: T)

  /** Which class was instantiated, with the public attributes only it declares. */
  datatype Variant =
    | BaseKind
    | GalleryKind(gallery: Gallery.GalleryAttributes)
    | RadioKind(radio: Radio.RadioAttributes)

  /** The value of every attribute of a field object, the protected `prefix` included. */
  datatype FieldState = FieldState(
    prefix: Bytes,
    key: Bytes,
    labelText: Bytes,
    name: Bytes,
    fieldType: Bytes,
    parent: Bytes,
    instructions: Bytes,
    required: int,
    conditionalLogic: Value,
    wrapper: Value,
    defaultValue: Bytes,
    own: Variant)

  /** The `wrapper` array `setWrapper` builds: exactly these three keys, in this order. */
  function WrapperArray(width: Bytes, cssClass: Bytes, id: Bytes): Value {
    Arr([(Str("width"), Str(width)), (Str("class"), Str(cssClass)), (Str("id"), Str(id))])
  }

  /** The public attributes the base class declares, in declaration order. */
  const BaseNames: seq<Bytes> := [
    "key", "label", "name", "type", "parent", "instructions",
    "required", "conditional_logic", "wrapper", "default_value"]

  /** The state of a freshly constructed object of the given variant. */
  function Fresh(own: Variant): FieldState {
    FieldState(
      prefix := "", key := "", labelText := "", name := "", fieldType := "text",
      parent := "", instructions := "", required := 0, conditionalLogic := Int(0),
      wrapper := WrapperArray("", "", ""), defaultValue := "", own := own)
  }

  /**
   * The public attribute names of the instantiated class, in the order the
   * loop of `getField` visits them: the base class's first, then the
   * subclass's.
   */
  function AttributeNames(v: Variant): seq<Bytes> {
    BaseNames +
    match v
    case BaseKind => []
    case GalleryKind(_) => Gallery.Names
    case RadioKind(_) => Radio.Names
  }

  /** Every public attribute with its current value, in `AttributeNames` order. */
  function Attributes(s: FieldState): (e: Entries)
    ensures Keys(e) == AttributeNames(s.own)
  {
    var base: Entries := [
      ("key", Str(s.key)), ("label", Str(s.labelText)), ("name", Str(s.name)),
      ("type", Str(s.fieldType)), ("parent", Str(s.parent)),
      ("instructions", Str(s.instructions)), ("required", Int(s.required)),
      ("conditional_logic", s.conditionalLogic), ("wrapper", s.wrapper),
      ("default_value", Str(s.defaultValue))];
    assert Keys(base) == BaseNames;
    base +
    match s.own
    case BaseKind => []
    case GalleryKind(g) => Gallery.Entries(g)
    case RadioKind(r) => Radio.Entries(r)
  }

  /** The entries whose value passes `isset`, in their original order. */
  function Present(e: Entries): (r: Entries)
    ensures |r| <= |e|
    ensures forall x :: x in r <==> x in e && IsSet(x.1)
    decreases |e|
  {
    if e == [] then []
    else (if IsSet(e[0].1) then [e[0]] else []) + Present(e[1..])
  }

  /** The array `getField` returns for a state whose key and name are already filled in. */
  function Record(s: FieldState): (r: Entries)
    ensures forall x :: x in r <==> x in Attributes(s) && IsSet(x.1)
    ensures |r| <= |AttributeNames(s.own)|
  {
    Present(Attributes(s))
  }

  /**
   * The key `getField` generates when none was set: "field_", the field
   * type, "_" and the unique prefix of the prefix and label.
   */
  function AutoKey(md5: Bytes -> Bytes, s: FieldState): (r: Bytes)
    ensures "field_" <= r && !IsEmptyString(r)
    ensures |r| == 7 + |s.fieldType| + |Naming.UniquePrefix(md5, s.prefix, s.labelText)|
    ensures r[6..6 + |s.fieldType|] == s.fieldType && r[6 + |s.fieldType|] == '_'
    ensures r[7 + |s.fieldType|..] == Naming.UniquePrefix(md5, s.prefix, s.labelText)
  {
    "field_" + s.fieldType + "_" + Naming.UniquePrefix(md5, s.prefix, s.labelText)
  }

  /**
   * The key shape the field builder works to keep: still unset, or starting
   * with "field_" as both `setKey` and the generated key do.
   */
  predicate KeyShaped(s: FieldState) {
    IsEmptyString(s.key) || "field_" <= s.key
  }

  /**
   * The state after the first half of `getField`: empty `key` and `name`
   * filled in. Afterwards the key is not PHP-empty (and starts with
   * "field_" when it was shaped so before), the name is non-empty or what
   * the label derives, and no other attribute has changed.
   */
  function Finalize(s: FieldState, md5: Bytes -> Bytes): (t: FieldState)
    ensures !IsEmptyString(t.key)
    ensures KeyShaped(s) ==> "field_" <= t.key
    ensures !IsEmptyString(t.name) || t.name == Naming.GenerateName(t.labelText)
    ensures t.(key := s.key, name := s.name) == s
  {
    var withKey := if IsEmptyString(s.key) then s.(key := AutoKey(md5, s)) else s;
    if IsEmptyString(withKey.name) then withKey.(name := Naming.GenerateName(withKey.labelText))
    else withKey
  }

  /** Filtering distributes over concatenation, so it keeps the order of the entries. */
  lemma {:induction false} PresentAppend(a: Entries, b: Entries)
    ensures Present(a + b) == Present(a) + Present(b)
    decreases |a|
  {
    if a != [] {
      var head: Entries := if IsSet(a[0].1) then [a[0]] else [];
      assert (a + b)[0] == a[0];
      assert (a + b)[1..] == a[1..] + b;
      PresentAppend(a[1..], b);
      calc {
        Present(a + b);
        head + Present(a[1..] + b);
        head + (Present(a[1..]) + Present(b));
        (head + Present(a[1..])) + Present(b);
        Present(a) + Present(b);
      }
    } else {
      assert a + b == b;
    }
  }

  /** When no value is null, the filter keeps every entry. */
  lemma {:induction false} PresentKeepsAllSet(e: Entries)
    requires forall i :: 0 <= i < |e| ==> IsSet(e[i].1)
    ensures Present(e) == e
    decreases |e|
  {
    if e != [] {
      PresentKeepsAllSet(e[1..]);
    }
  }

  /** Every key of the filtered array is one of the original keys. */
  lemma PresentKeysComeFromInput(e: Entries)
    ensures forall k :: k in Keys(Present(e)) ==> k in Keys(e)
  {
    var p := Present(e);
    forall k | k in Keys(p) ensures k in Keys(e) {
      var j :| 0 <= j < |p| && Keys(p)[j] == k;
      assert p[j] in e;
      var i :| 0 <= i < |e| && e[i] == p[j];
      assert Keys(e)[i] == k;
    }
  }

  /** Filtering cannot make a key repeat. */
  lemma {:induction false} PresentKeepsDistinct(e: Entries)
    requires Distinct(Keys(e))
    ensures Distinct(Keys(Present(e)))
    decreases |e|
  {
    if e != [] {
      var rest := e[1..];
      assert Keys(rest) == Keys(e)[1..];
      PresentKeepsDistinct(rest);
      if IsSet(e[0].1) {
        var p := Present(rest);
        PresentKeysComeFromInput(rest);
        forall k | 0 <= k < |rest| ensures Keys(rest)[k] != e[0].0 {
          assert Keys(rest)[k] == Keys(e)[k + 1];
          assert 0 < k + 1 < |Keys(e)| && Keys(e)[0] == e[0].0;
        }
        assert e[0].0 !in Keys(p);
        var ks := Keys(Present(e));
        assert ks == [e[0].0] + Keys(p);
        forall i, j | 0 <= i < j < |ks| ensures ks[i] != ks[j] {
          if i == 0 {
            assert ks[j] == Keys(p)[j - 1];
          } else {
            assert ks[i] == Keys(p)[i - 1] && ks[j] == Keys(p)[j - 1];
          }
        }
      } else {
        assert Present(e) == Present(rest);
      }
    }
  }

  /** Each variant's public attribute names are pairwise different. */
  lemma AttributeNamesDistinct(v: Variant)
    ensures Distinct(AttributeNames(v))
  {
  }

  /** The array `getField` returns never holds the same key twice. */
  lemma RecordKeysDistinct(s: FieldState)
    ensures Distinct(Keys(Record(s)))
  {
    AttributeNamesDistinct(s.own);
    PresentKeepsDistinct(Attributes(s));
  }

  /** `prefix` is protected, so it is none of the public attribute names. */
  lemma PrefixIsNotPublic(v: Variant)
    ensures "prefix" !in AttributeNames(v)
  {
  }

  /** The protected `prefix` never appears in the array `getField` returns. */
  lemma PrefixNeverInRecord(s: FieldState)
    ensures "prefix" !in Keys(Record(s))
  {
    PresentKeysComeFromInput(Attributes(s));
    PrefixIsNotPublic(s.own);
  }

  /**
   * `getField` generates the key only when the key is PHP-empty, and
   * afterwards the key is never empty. A key that was empty or set through
   * `setKey` then starts with "field_".
   */
  lemma FinalizeKey(s: FieldState, md5: Bytes -> Bytes)
    ensures IsEmptyString(s.key) ==> Finalize(s, md5).key == AutoKey(md5, s)
    ensures !IsEmptyString(s.key) ==> Finalize(s, md5).key == s.key
    ensures !IsEmptyString(Finalize(s, md5).key)
    ensures IsEmptyString(s.key) || "field_" <= s.key ==> "field_" <= Finalize(s, md5).key
  {
  }

  /**
   * `getField` derives the name from the label only when the name is
   * PHP-empty ("" or "0"); the name afterwards is either non-empty or
   * equal to what the label derives, so a second derivation gives it again.
   */
  lemma FinalizeName(s: FieldState, md5: Bytes -> Bytes)
    ensures IsEmptyString(s.name) ==> Finalize(s, md5).name == Naming.GenerateName(s.labelText)
    ensures !IsEmptyString(s.name) ==> Finalize(s, md5).name == s.name
    ensures !IsEmptyString(Finalize(s, md5).name) ||
            Finalize(s, md5).name == Naming.GenerateName(s.labelText)
  {
  }

  /** A second `getField` with no setter in between changes nothing. */
  lemma FinalizeIdempotent(s: FieldState, md5: Bytes -> Bytes)
    ensures Finalize(Finalize(s, md5), md5) == Finalize(s, md5)
  {
  }

  /** ... and returns the same array as the first. */
  lemma SecondRecordEqualsFirst(s: FieldState, md5: Bytes -> Bytes)
    ensures Record(Finalize(Finalize(s, md5), md5)) == Record(Finalize(s, md5))
  {
  }

  /**
   * A state whose `conditional_logic` and `wrapper` are not null and whose
   * subclass attributes still hold their defaults has no null attribute, so
   * `getField` emits every public attribute.
   */
  lemma {:induction false} RecordOfDefaultsHasEveryAttribute(s: FieldState)
    requires IsSet(s.conditionalLogic) && IsSet(s.wrapper)
    requires s.own.GalleryKind? ==> s.own.gallery == Gallery.Defaults
    requires s.own.RadioKind? ==> s.own.radio == Radio.Defaults
    ensures Record(s) == Attributes(s)
  {
    Gallery.DefaultsAreSet();
    Radio.DefaultsAreSet();
    PresentKeepsAllSet(Attributes(s));
  }

  /**
   * A fresh field of any variant has type "text", so the key `getField`
   * generates for it starts with "field_text_"; only key and name change.
   */
  lemma FreshFinalize(own: Variant, md5: Bytes -> Bytes)
    ensures Finalize(Fresh(own), md5) ==
            Fresh(own).(key := AutoKey(md5, Fresh(own)), name := Naming.GenerateName(""))
    ensures "field_text_" <= Finalize(Fresh(own), md5).key
  {
  }

  /**
   * On an untouched gallery field `getField` emits the ten base keys and
   * the eleven gallery keys, and its generated key starts with "field_text_".
   */
  lemma FreshGalleryRecord(md5: Bytes -> Bytes)
    ensures Keys(Record(Finalize(Fresh(GalleryKind(Gallery.Defaults)), md5))) == BaseNames + Gallery.Names
    ensures |Record(Finalize(Fresh(GalleryKind(Gallery.Defaults)), md5))| == 21
    ensures "field_text_" <= Finalize(Fresh(GalleryKind(Gallery.Defaults)), md5).key
  {
    FreshFinalize(GalleryKind(Gallery.Defaults), md5);
    RecordOfDefaultsHasEveryAttribute(Finalize(Fresh(GalleryKind(Gallery.Defaults)), md5));
  }

  /** On an untouched radio field `getField` emits the ten base keys and the four radio keys. */
  lemma FreshRadioRecord(md5: Bytes -> Bytes)
    ensures Keys(Record(Finalize(Fresh(RadioKind(Radio.Defaults)), md5))) == BaseNames + Radio.Names
    ensures |Record(Finalize(Fresh(RadioKind(Radio.Defaults)), md5))| == 14
  {
    FreshFinalize(RadioKind(Radio.Defaults), md5);
    RecordOfDefaultsHasEveryAttribute(Finalize(Fresh(RadioKind(Radio.Defaults)), md5));
  }

  /**
   * The `foreach` of `getField`: visits the attributes in order and copies
   * each one whose value passes `isset` into the result.
   */
  method CollectSet(attributes: Entries) returns (record: Entries)
    ensures record == Present(attributes)
  {
    record := [];
    for i := 0 to |attributes|
      invariant record == Present(attributes[..i])
    {
      var entry := attributes[i];
      assert attributes[..i + 1] == attributes[..i] + [entry];
      PresentAppend(attributes[..i], [entry]);
      if IsSet(entry.1) {
        record := record + [entry];
      }
    }
    assert attributes[..|attributes|] == attributes;
  }

  /** A field object. Each setter assigns one attribute and returns the object itself. */
  class Field {
    var prefix: Bytes
    var key: Bytes
    var labelText: Bytes
    var name: Bytes
    var fieldType: Bytes
    var parent: Bytes
    var instructions: Bytes
    var required: int
    var conditionalLogic: Value
    var wrapper: Value
    var defaultValue: Bytes
    var own: Variant

    function State(): FieldState
      reads this
    {
      FieldState(prefix, key, labelText, name, fieldType, parent, instructions,
                 required, conditionalLogic, wrapper, defaultValue, own)
    }

    /** `new Field()` */
    constructor Base()
      ensures State() == Fresh(BaseKind)
      ensures KeyShaped(State())
    {
      prefix, key, labelText, name, fieldType := "", "", "", "", "text";
      parent, instructions, required, conditionalLogic := "", "", 0, Int(0);
      wrapper, defaultValue := WrapperArray("", "", ""), "";
      own := BaseKind;
    }

    /** `new GalleryField()` */
    constructor GalleryField()
      ensures State() == Fresh(GalleryKind(Gallery.Defaults))
      ensures KeyShaped(State())
    {
      prefix, key, labelText, name, fieldType := "", "", "", "", "text";
      parent, instructions, required, conditionalLogic := "", "", 0, Int(0);
      wrapper, defaultValue := WrapperArray("", "", ""), "";
      own := GalleryKind(Gallery.Defaults);
    }

    /** `new RadioField()` */
    constructor RadioField()
      ensures State() == Fresh(RadioKind(Radio.Defaults))
      ensures KeyShaped(State())
    {
      prefix, key, labelText, name, fieldType := "", "", "", "", "text";
      parent, instructions, required, conditionalLogic := "", "", 0, Int(0);
      wrapper, defaultValue := WrapperArray("", "", ""), "";
      own := RadioKind(Radio.Defaults);
    }

    method SetPrefix(p: Bytes) returns (self: Field)
      modifies this
      ensures self == this
      ensures State() == old(State()).(prefix := p)
      ensures old(KeyShaped(State())) ==> KeyShaped(State())
    {
      prefix := p;
      self := this;
    }

    /** Stores the given key behind the literal "field_". */
    method SetKey(k: Bytes) returns (self: Field)
      modifies this
      ensures self == this
      ensures State() == old(State()).(key := "field_" + k)
      ensures KeyShaped(State())
    {
      key := "field_" + k;
      self := this;
    }

    method SetLabel(l: Bytes) returns (self: Field)
      modifies this
      ensures self == this
      ensures State() == old(State()).(labelText := l)
      ensures old(KeyShaped(State())) ==> KeyShaped(State())
    {
      labelText := l;
      self := this;
    }

    method SetName(n: Bytes) returns (self: Field)
      modifies this
      ensures self == this
      ensures State() == old(State()).(name := n)
      ensures old(KeyShaped(State())) ==> KeyShaped(State())
    {
      name := n;
      self := this;
    }

    method SetType(t: Bytes) returns (self: Field)
      modifies this
      ensures self == this
      ensures State() == old(State()).(fieldType := t)
      ensures old(KeyShaped(State())) ==> KeyShaped(State())
    {
      fieldType := t;
      self := this;
    }

    method SetParent(p: Bytes) returns (self: Field)
      modifies this
      ensures self == this
      ensures State() == old(State()).(parent := p)
      ensures old(KeyShaped(State())) ==> KeyShaped(State())
    {
      parent := p;
      self := this;
    }

    method SetInstructions(i: Bytes) returns (self: Field)
      modifies this
      ensures self == this
      ensures State() == old(State()).(instructions := i)
      ensures old(KeyShaped(State())) ==> KeyShaped(State())
    {
      instructions := i;
      self := this;
    }

    method SetRequired(r: int) returns (self: Field)
      modifies this
      ensures self == this
      ensures State() == old(State()).(required := r)
      ensures old(KeyShaped(State())) ==> KeyShaped(State())
    {
      required := r;
      self := this;
    }

    method SetConditionalLogic(logic: Value) returns (self: Field)
      modifies this
      ensures self == this
      ensures State() == old(State()).(conditionalLogic := logic)
      ensures old(KeyShaped(State())) ==> KeyShaped(State())
    {
      conditionalLogic := logic;
      self := this;
    }

    /** Replaces the whole wrapper array; no earlier entry survives. */
    method SetWrapper(width: Bytes, cssClass: Bytes, id: Bytes) returns (self: Field)
      modifies this
      ensures self == this
      ensures State() == old(State()).(wrapper := WrapperArray(width, cssClass, id))
      ensures old(KeyShaped(State())) ==> KeyShaped(State())
    {
      wrapper := WrapperArray(width, cssClass, id);
      self := this;
    }

    method SetDefaultValue(d: Bytes) returns (self: Field)
      modifies this
      ensures self == this
      ensures State() == old(State()).(defaultValue := d)
      ensures old(KeyShaped(State())) ==> KeyShaped(State())
    {
      defaultValue := d;
      self := this;
    }

    /**
     * `getField()`: fills in an empty key and name, then visits the public
     * attributes in order and keeps each one whose value is set.
     */
    method GetField(md5: Bytes -> Bytes) returns (record: Entries)
      modifies this
      ensures State() == Finalize(old(State()), md5)
      ensures record == Record(State())
      ensures old(KeyShaped(State())) ==> "field_" <= key
    {
      if IsEmptyString(key) {
        key := AutoKey(md5, State());
      }
      if IsEmptyString(name) {
        name := Naming.GenerateName(labelText);
      }
      record := CollectSet(Attributes(State()));
    }

    /**
     * `saveField()`: only when the host's registration function exists is
     * `getField` called, and its array is what the host receives.
     */
    method SaveField(md5: Bytes -> Bytes, hostAvailable: bool) returns (submitted: Option<Entries>)
      modifies this
      ensures hostAvailable ==> State() == Finalize(old(State()), md5) && submitted == Some(Record(State()))
      ensures !hostAvailable ==> State() == old(State()) && submitted == None
      ensures hostAvailable && old(KeyShaped(State())) ==> "field_" <= key
      ensures old(KeyShaped(State())) ==> KeyShaped(State())
    {
      if hostAvailable {
        var record := GetField(md5);
        submitted := Some(record);
      } else {
        submitted := None;
      }
    }
  }
}
