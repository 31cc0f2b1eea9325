# ACF field builder, modelled in Dafny

This project models the field builder of the Nemesis WordPress toolkit
(`NanoSoup\Nemesis\ACF\Fields`). A `Field` object collects the attributes of
one Advanced Custom Fields field definition through chained setters. Its
`getField()` fills in an empty `key` and an empty `name`, then returns the
public attributes whose value is set, as an ordered array. `saveField()`
hands that array to ACF's `acf_add_local_field` when the function exists.
`GalleryField` and `RadioField` add public attributes with fixed defaults
and no behaviour of their own.

Files:

- `php.dfy` (module `Php`): the PHP notions the builder relies on. These are
  byte strings, property values, `empty()` on strings, `isset()`, ASCII
  `strtolower` and one-byte `str_replace`.
- `naming.dfy` (module `Naming`): `generateName` and `generateUniquePrefix`.
- `gallery.dfy` and `radio.dfy` (modules `Gallery`, `Radio`): the attributes
  each subclass declares, their names in declaration order, and their defaults.
- `fields.dfy` (module `Fields`): the `Field` class, its setters, `getField`
  and `saveField`. It also holds the functions that specify them:
  - `Finalize` fills in the key and the name.
  - `Attributes` lists the public attributes in order.
  - `Present` is the `isset` filter.
  - `Record` gives the returned array.

Modelling choices:

- A PHP string is a byte sequence. It is modelled as `seq<Byte>`, where each
  byte is written as the character with that code. `[A-Za-z0-9]` and
  `strtolower` are ASCII-only. Without the `u` flag the regular expression
  works byte by byte, so every byte of a multi-byte character is a separator.
- Dafny has no class inheritance here. So one class, `Fields.Field`, stands
  for all three PHP classes:
  - Its `own: Variant` field holds the public attributes only the subclass
    declares.
  - The named constructors `Base`, `GalleryField` and `RadioField` stand for
    `new Field()`, `new GalleryField()` and `new RadioField()`.
  - The base setters leave `own` unchanged, so they never touch a gallery or
    radio attribute.
- `Field.State()` is the value of every attribute, as a `FieldState`. Each
  setter's postcondition gives the whole new state: the old state with one
  attribute replaced. Each setter returns the object itself.
- `getField` is `Finalize` followed by the loop `CollectSet` over
  `Attributes`. The loop keeps each entry that passes `isset`. The attribute
  names are distinct, so `$field[$name] = …` always appends.
- PHP's `md5` is the parameter `md5: Bytes -> Bytes`: any deterministic
  function, with no claim about digests or collisions.
- `generateUniquePrefix` gives the same result for different inputs whatever
  the hash. The prefix and the label are joined without a separator, so
  ("ab", "c") and ("a", "bc") collide. Case and space versus `_` are folded
  away, so the labels "My Field" and "my_field" collide too.
- The key invariant `KeyShaped` says the key is PHP-empty or starts with
  "field_". Every constructor establishes it, `setKey` establishes it
  whatever the key was, and every other setter keeps it. After `getField`
  the key then starts with "field_". The setters promise only to keep it,
  not to restore it, because a key assigned directly may break it.
- `saveField` receives whether ACF's function exists as the parameter
  `hostAvailable`. It returns the array handed to ACF, or `None`. When ACF is
  absent, the source does not call `getField` at all, so the state stays
  unchanged.
- `RadioField::$layout` is the integer 0. Its doc comment says 'vertical'; the
  model follows the code.

## Model

| member | source | states |
|---|---|---|
| `Naming.CollapseRuns` | src/ACF/Fields/Field.php:227 | every output byte is a letter, a digit or `_`; no two `_` are adjacent; once inside a separator run no `_` opens the rest; from the start, the output is empty exactly when the input is; the output is never longer than the input |
| `Naming.GenerateName` | src/ACF/Fields/Field.php:225-229 | the name contains only `[a-z0-9_]`, never two `_` in a row, is empty exactly when the label is, and is at most as long as the label |
| `Naming.GenerateNameKeepsAlnums` | src/ACF/Fields/Field.php:227-228 | the name's letters and digits are the label's letters and digits in order, lower-cased |
| `Naming.GenerateNameIdempotent` | src/ACF/Fields/Field.php:225-229 | applying `generateName` to a generated name returns it unchanged |
| `Naming.GenerateNameByPosition` | src/ACF/Fields/Field.php:227-228 | an independent, byte-by-byte definition agrees with `generateName` on every label: a letter or digit contributes itself lower-cased, the first byte of a separator run contributes one `_`, later bytes of the run contribute nothing |
| `Naming.GeneratedNameMayBeEmpty` | src/ACF/Fields/Field.php:225-229 | the empty label gives the empty name, and the label "0" gives "0", which PHP's `empty` also counts as empty |
| `Naming.HashInput` | src/ACF/Fields/Field.php:240 | the bytes hashed are the prefix followed by the label with the same length; past the prefix they hold no space and no upper-case letter |
| `Naming.HashInputFoldsLabel` | src/ACF/Fields/Field.php:240 | two labels of equal length reach the hash as the same bytes if and only if they agree byte by byte up to ASCII case and space versus `_` |
| `Naming.UniquePrefixIgnoresCaseAndSpaces` | src/ACF/Fields/Field.php:238-241 | labels equal up to case and space versus `_` get the same unique prefix, whatever the hash |
| `Naming.UniquePrefix` | src/ACF/Fields/Field.php:238-241 | the result is `md5` of the prefix followed by the label, each label byte read with space as `_` and upper-case letters lowered |
| `Naming.UniquePrefixJoinsWithoutSeparator` | src/ACF/Fields/Field.php:238-241 | prefix "ab" with label "c" gets the same unique prefix as prefix "a" with label "bc", whatever the hash |
| `Naming.UniquePrefixFoldsLabels` | src/ACF/Fields/Field.php:238-241 | the labels "My Field" and "my_field" get the same unique prefix under any prefix, whatever the hash |
| `Naming.GenerateNameExample` | src/ACF/Fields/Field.php:225-229 | the label "My Field!" gives the name "my_field_": the space and the trailing "!" each become one `_` |
| `Php.IsSet` | src/ACF/Fields/Field.php:263 | null is not set; the integer 0, false, the empty string and the empty array are all set |
| `Php.IsEmptyString` | src/ACF/Fields/Field.php:252-256 | "" is empty; a one-byte string is empty exactly when it is "0"; no longer string is empty |
| `Gallery.Entries` | src/ACF/Fields/GalleryField.php:17-90 | the gallery attributes come out under exactly the eleven declared names, in declaration order |
| `Gallery.DefaultsAreSet` | src/ACF/Fields/GalleryField.php:17-90 | no gallery default is null, so each one passes `isset` |
| `Radio.Entries` | src/ACF/Fields/RadioField.php:17-40 | the radio attributes come out under exactly `choices`, `other_choice`, `save_other_choice`, `layout`, in that order |
| `Radio.DefaultValues` | src/ACF/Fields/RadioField.php:17-40 | a fresh radio field has `choices == []`, both flags 0, and `layout` the integer 0, not 'vertical' |
| `Radio.DefaultsAreSet` | src/ACF/Fields/RadioField.php:17-40 | no radio default is null, so each one passes `isset` |
| `Fields.Attributes` | src/ACF/Fields/Field.php:260-261 | the attributes visited are named by the base class's ten public names followed by the subclass's, in declaration order |
| `Fields.Record` | src/ACF/Fields/Field.php:260-268 | the returned array holds exactly the public attributes whose value is set, and never more entries than the class has public names |
| `Fields.AutoKey` | src/ACF/Fields/Field.php:253 | the generated key starts with "field_", is not PHP-empty, and continues with the field type, one `_` and the unique prefix of the prefix and label |
| `Fields.Finalize` | src/ACF/Fields/Field.php:252-258 | afterwards the key is not PHP-empty and starts with "field_" if the key was shaped so before; the name is non-empty or what the label derives; no other attribute changes |
| `Fields.Present` | src/ACF/Fields/Field.php:263-265 | an entry is kept exactly when it is in the input and its value is not null; the result is never longer than the input |
| `Fields.PresentAppend` | src/ACF/Fields/Field.php:261-266 | filtering a concatenation is the concatenation of the filtered parts, so kept entries keep their relative order |
| `Fields.PresentKeepsAllSet` | src/ACF/Fields/Field.php:263-265 | when no value is null every entry is kept, in order |
| `Fields.PresentKeysComeFromInput` | src/ACF/Fields/Field.php:261-266 | every key of the returned array is one of the visited attribute names |
| `Fields.PresentKeepsDistinct` | src/ACF/Fields/Field.php:261-266 | filtering never makes a key repeat |
| `Fields.AttributeNamesDistinct` | src/ACF/Fields/Field.php:27-95 | the public attribute names of each class are pairwise different |
| `Fields.RecordKeysDistinct` | src/ACF/Fields/Field.php:260-268 | the array `getField` returns holds each key once |
| `Fields.PrefixIsNotPublic` | src/ACF/Fields/Field.php:20 | `prefix` is not among the public attribute names of any class |
| `Fields.PrefixNeverInRecord` | src/ACF/Fields/Field.php:260-266 | the protected `prefix` never appears in the array `getField` returns |
| `Fields.FinalizeKey` | src/ACF/Fields/Field.php:252-254 | a PHP-empty key ("" or "0") becomes `"field_" + type + "_" + md5(prefix + normalised label)`, any other key is kept; afterwards the key is never empty, and it starts with "field_" if it was empty or set through `setKey` |
| `Fields.FinalizeName` | src/ACF/Fields/Field.php:256-258 | a PHP-empty name ("" or "0") becomes `generateName(label)`, any other name is kept; afterwards the name is non-empty or equal to `generateName(label)` |
| `Fields.FinalizeIdempotent` | src/ACF/Fields/Field.php:252-258 | a second `getField` with no setter in between leaves the state as the first left it |
| `Fields.SecondRecordEqualsFirst` | src/ACF/Fields/Field.php:248-269 | a second `getField` with no setter in between returns the same array as the first |
| `Fields.RecordOfDefaultsHasEveryAttribute` | src/ACF/Fields/Field.php:263-264 | with `conditional_logic` and `wrapper` not null and the subclass attributes at their defaults, every public attribute is emitted, in order |
| `Fields.FreshFinalize` | src/ACF/Fields/Field.php:48 | on a fresh field of any class `getField` sets only the key and the name; the type is 'text', so the key starts with "field_text_" |
| `Fields.FreshGalleryRecord` | src/ACF/Fields/GalleryField.php:10-91 | on an untouched gallery field `getField` emits the ten base keys and then the eleven gallery keys (21 entries), with a key starting "field_text_" |
| `Fields.FreshRadioRecord` | src/ACF/Fields/RadioField.php:10-41 | on an untouched radio field `getField` emits the ten base keys and then the four radio keys (14 entries) |
| `Fields.CollectSet` | src/ACF/Fields/Field.php:260-266 | the loop returns exactly the entries that pass `isset`, in visiting order |
| `Fields.Field.Base` | src/ACF/Fields/Field.php:20-101 | a new field has every attribute at its declared default: type 'text', `required` 0, `conditional_logic` 0, an all-empty wrapper, empty strings elsewhere; the key is shaped |
| `Fields.Field.GalleryField` | src/ACF/Fields/GalleryField.php:17-90 | a new gallery field has the base defaults plus `min = max = 0`, 'thumbnail', 'all', all six size bounds 0 and empty `mime_types`; the key is shaped |
| `Fields.Field.RadioField` | src/ACF/Fields/RadioField.php:17-40 | a new radio field has the base defaults plus the radio defaults; the key is shaped |
| `Fields.Field.SetPrefix` | src/ACF/Fields/Field.php:107-111 | only `prefix` changes, to the argument; keeps the key shaped; returns the same object |
| `Fields.Field.SetKey` | src/ACF/Fields/Field.php:117-121 | only `key` changes, to exactly `"field_" + k`, so the key is shaped afterwards whatever it was; returns the same object |
| `Fields.Field.SetLabel` | src/ACF/Fields/Field.php:127-131 | only `label` changes, to the argument; keeps the key shaped; returns the same object |
| `Fields.Field.SetName` | src/ACF/Fields/Field.php:137-141 | only `name` changes, to the argument; keeps the key shaped; returns the same object |
| `Fields.Field.SetType` | src/ACF/Fields/Field.php:147-151 | only `type` changes, to the argument; keeps the key shaped; returns the same object |
| `Fields.Field.SetParent` | src/ACF/Fields/Field.php:157-161 | only `parent` changes, to the argument; keeps the key shaped; returns the same object |
| `Fields.Field.SetInstructions` | src/ACF/Fields/Field.php:167-171 | only `instructions` changes, to the argument; keeps the key shaped; returns the same object |
| `Fields.Field.SetRequired` | src/ACF/Fields/Field.php:177-181 | only `required` changes, to the argument; keeps the key shaped; returns the same object |
| `Fields.Field.SetConditionalLogic` | src/ACF/Fields/Field.php:187-191 | only `conditional_logic` changes, to the argument, which may be null; keeps the key shaped; returns the same object |
| `Fields.Field.SetWrapper` | src/ACF/Fields/Field.php:199-207 | `wrapper` is replaced by exactly `[width => w, class => c, id => i]` and nothing else changes; keeps the key shaped; returns the same object |
| `Fields.Field.SetDefaultValue` | src/ACF/Fields/Field.php:213-217 | only `default_value` changes, to the argument; keeps the key shaped; returns the same object |
| `Fields.Field.GetField` | src/ACF/Fields/Field.php:248-269 | the new state is the old one with key and name filled in as `Finalize` says; the result is the `isset` filter of the public attributes of the new state; a shaped key then starts with "field_" |
| `Fields.Field.SaveField` | src/ACF/Fields/Field.php:276-281 | when ACF's function exists, `getField` runs once and its array is what ACF receives; otherwise nothing changes and nothing is sent; a shaped key stays shaped, and starts with "field_" once ACF has been called |

## Left out

- ACF's `acf_add_local_field` and the `function_exists` test are not modelled. They are replaced by the `hostAvailable` parameter and the returned `Option`; what ACF does with the array is outside the model.
- `md5` is not modelled. It is a parameter, and nothing is claimed about digest length, hex format or collisions.
- `ReflectionClass::getProperties` is not modelled. It is replaced by a fixed name list per class: the base class's public names first, then the subclass's. PHP lists a subclass's own properties first; the model uses base-first. So the order the `Attributes`, `FreshGalleryRecord` and `FreshRadioRecord` rows state is the model's order, not PHP's; the set of keys and their values are the same.
- Direct assignment to public properties from outside the class is not modelled as an operation. The class's fields are public Dafny fields, so a caller can assign them. Base attributes keep the types the setters enforce (strings, and an int for `required`), so a null base string is not represented. A direct assignment to `key` can break the key invariant, which is why the setters only keep it. A caller can also assign `own` and turn a base field into a gallery field, which no PHP object can do.
- PHP's coercion of scalar setter arguments (for example `setRequired("1")` outside strict-types mode) is left out. Setters take already-typed values.
- Floating-point values and objects are left out of `Value`. The contents of `conditional_logic` and `choices` are passed through without interpretation.
- Locale-dependent `strtolower` on bytes above 127 is left out. Lower-casing is ASCII-only.
- `preg_replace` can return null when the PCRE engine fails. That error path is left out.
