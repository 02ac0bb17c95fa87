# VSThemeBrowser composition root: fallback colour storage and component names

VSThemeBrowser hosts the Visual Studio editor outside Visual Studio. Its static
class `Mef` builds the MEF composition container that the editor services run
in. The container loads a fixed list of editor assemblies. It registers a few
hand-built overrides, and one of them is a fallback colour storage. Visual
Studio's own storage reads the user's colour settings through COM, which is
not available here, so the fallback answers from a fixed table.

This project models the three parts of `Mef` that have behaviour:

- `SimpleDataStorage.TryGetItemValue` and its helper `CreateSetter`
  (module `DataStorage`). A lookup allocates a new resource dictionary. It
  creates two setter closures, one for the `Background` role and one for the
  `Foreground` role. It then switches on the item key and reports success for
  every key. A setter writes a brush under its role label and the raw colour
  under the label followed by `Color`. The dictionary is a class whose
  `entries` map the setters update in place. The closure is a class `Setter`
  that captures the dictionary and the label. The lookup is proved equal to
  `Attributes(PolicyFor(key))`. `PolicyFor` is the resolution table, written as
  an independent reference definition. `Attributes` is the dictionary that
  applying a policy to an empty dictionary produces, and `ReadRole` reads a
  role back out of it.
- `DataStorageService.GetDataStorage` (module `DataStorage`). The service holds
  one storage and returns it for every storage key.
- The full-name mapping in `GetCatalogs` (module `Mef`). Each editor component
  name has a fixed culture / public-key suffix appended. `ComponentOf` strips
  the suffix again and serves as the mapping's inverse.

Colours are the abstract datatype `Colors.Color`. It has the six system colours
the storage reads (window, window text, highlight, highlight text, control,
control text) and the two fixed colours of the default branch (Beige,
MidnightBlue). Dictionary values are `Brush(c)` or `Raw(c)`.

## Model

| member | source | states |
|---|---|---|
| `DataStorage.PolicyFor` | VSThemeBrowser/VisualStudio/Mef.cs:77-97 | The lookup table always sets at least one role. A role gets a system colour exactly when the key is one of the four known keys. An unknown key sets both roles. |
| `DataStorage.Attributes` | VSThemeBrowser/VisualStudio/Mef.cs:72-74 | The dictionary that a policy's setter calls build from an empty dictionary uses only the four role labels. Each role's brush and raw colour agree. Reading a role back gives exactly the policy's colour for it, or nothing when the policy leaves it unset. |
| `DataStorage.LabelsDistinct` | VSThemeBrowser/VisualStudio/Mef.cs:73-74 | The labels `Background`, `BackgroundColor`, `Foreground` and `ForegroundColor` are pairwise distinct, so the two setters never overwrite each other. |
| `DataStorage.ResourceDictionary.constructor` | VSThemeBrowser/VisualStudio/Mef.cs:72 | A new dictionary is empty. |
| `DataStorage.Setter.constructor` | VSThemeBrowser/VisualStudio/Mef.cs:103 | The closure captures the dictionary and the role label it is given. |
| `DataStorage.Setter.Invoke` | VSThemeBrowser/VisualStudio/Mef.cs:103-106 | Calling a setter with colour c makes the dictionary the old one overridden by exactly two entries: the label mapped to `Brush(c)` and the label plus `Color` mapped to `Raw(c)`. Nothing else changes. |
| `DataStorage.SimpleDataStorage.CreateSetter` | VSThemeBrowser/VisualStudio/Mef.cs:102-107 | Returns a new setter bound to the given dictionary and label. |
| `DataStorage.SimpleDataStorage.TryGetItemValue` | VSThemeBrowser/VisualStudio/Mef.cs:71-100 | Returns true for every key. The dictionary it returns is newly allocated, so it is never shared between calls. Its entries are `Attributes(PolicyFor(itemKey))`. |
| `DataStorage.SetterWritesPair` | VSThemeBrowser/VisualStudio/Mef.cs:102-106 | After one setter call on any dictionary, the key set grows by exactly the label and the label plus `Color`. Those two entries carry the same colour, and reading the role gives that colour. Every other entry is unchanged. |
| `DataStorage.LookupShape` | VSThemeBrowser/VisualStudio/Mef.cs:72-97 | For every key, the lookup's dictionary holds two or four entries. They are all among the four role labels and are well paired. |
| `DataStorage.TextViewBackgroundLookup` | VSThemeBrowser/VisualStudio/Mef.cs:78-80 | "TextView Background" yields exactly the background pair, set to the system window colour. |
| `DataStorage.PlainTextLookup` | VSThemeBrowser/VisualStudio/Mef.cs:81-83 | "Plain Text" yields exactly the foreground pair, set to the system window-text colour, with no background. |
| `DataStorage.SelectedTextLookup` | VSThemeBrowser/VisualStudio/Mef.cs:84-87 | "Selected Text" yields exactly a background of highlight and a foreground of highlight text. |
| `DataStorage.InactiveSelectedTextLookup` | VSThemeBrowser/VisualStudio/Mef.cs:88-91 | "Inactive Selected Text" yields exactly a background of control and a foreground of control text. |
| `DataStorage.UnknownKeyLookup` | VSThemeBrowser/VisualStudio/Mef.cs:92-96 | Any other key yields exactly four entries: Beige for the background and MidnightBlue for the foreground. None of its colours comes from the system palette. |
| `DataStorage.SystemColorsIffKnownKey` | VSThemeBrowser/VisualStudio/Mef.cs:77-96 | Every colour in a lookup's dictionary is a system colour if and only if the key is one of the four known keys. |
| `DataStorage.DataStorageService.constructor` | VSThemeBrowser/VisualStudio/Mef.cs:111 | The service is created with its own new storage instance. |
| `DataStorage.DataStorageService.GetDataStorage` | VSThemeBrowser/VisualStudio/Mef.cs:112 | Returns the service's one storage instance, whatever the storage key. |
| `DataStorage.OneStorageForEveryKey` | VSThemeBrowser/VisualStudio/Mef.cs:111-112 | Any two storage keys get the same storage. |
| `Mef.FullNames` | VSThemeBrowser/VisualStudio/Mef.cs:48-49 | The full names match the components one for one: same length, same order, and each is its component followed by `FullNameSuffix`. |
| `Mef.ComponentOfFullName` | VSThemeBrowser/VisualStudio/Mef.cs:47-49 | Stripping the suffix from a component's full name gives the component back. |
| `Mef.FullNameOfComponent` | VSThemeBrowser/VisualStudio/Mef.cs:47-49 | A name from which a component can be stripped is that component's full name. |
| `Mef.FullNameInjective` | VSThemeBrowser/VisualStudio/Mef.cs:47-49 | Two components with the same full name are the same component. |
| `Mef.FullNamesInjective` | VSThemeBrowser/VisualStudio/Mef.cs:48-49 | Two component lists with the same full names are the same list. |
| `Mef.EditorComponentsDistinct` | VSThemeBrowser/VisualStudio/Mef.cs:21-43 | No editor component is listed twice. |
| `Mef.EditorComponentFullNames` | VSThemeBrowser/VisualStudio/Mef.cs:21-49 | The seven editor components load under seven distinct full names, in list order, and each strips back to its component. |

## Left out

- Building the `CompositionContainer` from an `AggregateCatalog` and the `ComposeExportedValue` registrations (Mef.cs:51-66): these are calls into MEF, whose semantics are not part of this model.
- `Assembly.Load` and the host's assembly resolution (Mef.cs:49): runtime loading. Only the names passed to it are modelled.
- `Activator.CreateInstance` of the undo-history registry found by type name (Mef.cs:62-65): reflection into another assembly.
- `ServiceProvider.GlobalProvider` wrapped in `VsServiceProviderWrapper` (Mef.cs:55-56): an ambient host service.
- Thread safety of the static initialiser: this is CLR behaviour and is not modelled.
- `Debug.WriteLine` on the default branch (Mef.cs:93): diagnostic output.
- The RGB values of `SystemColors` and `Colors`, and how a `SolidColorBrush` renders: colours are opaque constructors, and a brush is identified by its colour.
- The `[Export]` attribute on `DataStorageService` (Mef.cs:109): declarative metadata.
- `SimpleDataStorage` holds no state, so its constructor has no contract and no row.
