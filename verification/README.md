# Custom item descriptors and entity identifiers, modelled in Dafny

This project models the core of a plugin that lets a game server offer custom
items and entities to its clients.

**Item components.** An item owns a component set. Each component has a
name, a value and a flag that says whether it is a "property".
- `addComponent` stores a component under its name. The last write wins.
- `initComponent` adds a fixed sequence of default components chosen by
  what the item is: armor, consumable, food, durable, projectile, named, or fuel.
- The caller helpers (`setupRenderOffsets`, `allowOffHand`, `setUseCooldown`,
  `setUseDuration`) each add one or two components.
- `getComponents` converts every value to a tag and builds the tree
  `{components: {…, item_properties: {…}}}`. Properties go into
  `item_properties` and everything else goes directly under `components`.
  If any value cannot be converted, the whole assembly fails.

**Entity identifiers.** `registerEntity` appends `{id: identifier}` to a
process-wide list. `updateStaticPacketCache` pushes every entry of that list
onto the host packet cache's `idlist`.

Modules, one per file:
- `Wrappers` (`wrappers.dfy`): `Option` and `Result`.
- `Tags` (`tags.dfy`): runtime values, leaf tags, and the descriptor tree (`Node`, `Tree`), with path lookup `At`.
- `Components` (`components.dfy`): the three-accessor `Component`, `CreativeInfo`, the abstract `ComponentClass`, and the two concrete classes `CreativeGroup` and `Damage`.
- `ComponentSets` (`component_sets.dfy`): the well-keyed `ComponentSet`, the possibly uninitialised `ComponentsProperty`, `AddComponent`, `HasComponent`, and runs of additions (`AddEach` on the property, `AddAll` on an array).
- `Assembly` (`assembly.dfy`): `GetComponents`, which is a loop over the set, plus the reference `Descriptor` it is proved equal to and the routing lemmas.
- `Defaults` (`defaults.dfy`): the capability record, the `Catalog` of classes and constants not modelled here, `InitComponent` and the caller helpers.
- `Pipeline` (`pipeline.dfy`): an item's defaults followed by assembly.
- `EntityFactory` (`entity_factory.dfy`): registration and the cache patch.

Parameters that stand for things this model does not define:
- The tag-type helper is a parameter `conv: Value -> Option<TagValue>`. `None` means "no tag type".
- `instanceof Armor/Consumable/Food/Durable/ProjectileItem` and the item getters become the record `Capabilities`.
- Several sources are not part of this model:
  - the component classes other than `CreativeGroupComponent` and `DamageComponent`;
  - `WearableComponent::SLOT_*`, `ArmorInventory::SLOT_*` and `UseAnimationComponent::ANIMATION_*`;
  - `CreativeInventoryInfo::DEFAULT()`.

  Each one is a field of the `Catalog` parameter. A class is its name, its
  property flag and the function its `getValue()` applies to the constructor
  arguments.

### Behaviour worth noting

- The trait declares `$components` without an initial value (`src/item/ItemComponentsTrait.php:39`). The first `addComponent` creates the array. `hasComponent` is false before that. `getComponents` before any addition fails, because its `foreach` (:52) reads an uninitialised property. The model represents the property as `Option<ComponentSet>`.
- `getComponents` throws when a value has no tag type (:53-55). `GetComponents` returns `Failure` in that case.
- A non-property component named `item_properties` is overwritten by the properties compound, which is written after the loop (:63).
- `registerEntity` appends without deduplicating (`src/entity/CustomiesEntityFactory.php:49`). `EntityFactory.RepeatedRegistrationKept` states this.
- `updateStaticPacketCache` does not clear the list, so a second patch appends everything again (:33-35). `EntityFactory.PatchTwice` states this.

## Model

| member | source | states |
|---|---|---|
| Components.CreativeGroup | src/item/component/CreativeGroupComponent.php:12-26 | the component is named "creative_group", is a property, and its value is the string group of the creative info it was built from |
| Components.Damage | src/item/component/DamageComponent.php:7-19 | the component is named "damage", is a property, and its value is exactly the integer it was built from |
| ComponentSets.AddComponent | src/item/ItemComponentsTrait.php:39-43 | after adding, the property is initialised and the component's name maps to the component; every other name keeps its presence and its component (none present if the property was uninitialised) |
| ComponentSets.Put | src/item/ItemComponentsTrait.php:42 | the write on an existing array stores the component under its name, keeps every other entry, and grows the array by one only for a new name |
| ComponentSets.HasComponent | src/item/ItemComponentsTrait.php:45-47 | `hasComponent` holds only on an initialised property, and then exactly for its keys; `ComponentSets.HasAfterAdd` relates it to `addComponent` |
| ComponentSets.LastWriteWins | src/item/ItemComponentsTrait.php:41-43 | adding two components with the same name leaves one entry, the second, as if only the second were added |
| ComponentSets.HasAfterAdd | src/item/ItemComponentsTrait.php:41-47 | `hasComponent(n)` after adding `c` holds exactly when `n` is `c`'s name or was already present |
| ComponentSets.AddAll | src/item/ItemComponentsTrait.php:41-43 | after a run of additions, a name is present iff it was present before or some added component carries it; its entry is the last added component with that name, or the old entry if none |
| ComponentSets.AddEachIsAddAll | src/item/ItemComponentsTrait.php:39-43 | a non-empty run of `addComponent` calls leaves the property initialised, holding what the same writes give on its array (an empty one if it was uninitialised) |
| Assembly.GetComponents | src/item/ItemComponentsTrait.php:49-66 | fails on a never-written `$components`; otherwise succeeds exactly when every value converts; on success the tree is the reference descriptor; on failure the error names a component of the set whose value does not convert |
| Assembly.DescriptorRouting | src/item/ItemComponentsTrait.php:49-65 | the root has the single key `components`; each property appears under `components.item_properties` with its converted tag and not directly under `components`; each other component (unless named `item_properties`) appears directly under `components` and not among the properties; nothing else appears in either compound |
| Assembly.PropertiesAlwaysPresent | src/item/ItemComponentsTrait.php:51-63 | `components.item_properties` is always a compound, and it is empty exactly when no component is a property |
| Assembly.EmptyDescriptor | src/item/ItemComponentsTrait.php:49-65 | assembling an initialised but empty array gives `components` holding only an empty `item_properties` |
| Defaults.InitComponent | src/item/ItemComponentsTrait.php:71-115 | the property is initialised afterwards and keeps every name it had; `Defaults.InitIsAddComponentRun` and the `Defaults.Init*` lemmas below state the rest |
| Defaults.InitIsAddComponentRun | src/item/ItemComponentsTrait.php:71-115 | `initComponent` equals the in-order run of `addComponent` calls of its fifteen guarded steps, starting from the property as it was |
| Defaults.InitStep | src/item/ItemComponentsTrait.php:71-115 | with distinct class names, each default is stored under its name when its capability condition holds, and that name is left as it was otherwise |
| Defaults.InitAlwaysPresent | src/item/ItemComponentsTrait.php:72-77 | creative category, creative group, can-destroy-in-creative, icon and max-stack-size are always present after initialisation, whatever the class names |
| Defaults.InitAlwaysValues | src/item/ItemComponentsTrait.php:72-77 | those five hold the given creative info (the default one when none is given), the texture as icon, and the item's max stack size |
| Defaults.InitDefaultGroup | src/item/ItemComponentsTrait.php:72-74 | without creative info, the creative group is the default info's group |
| Defaults.SlotMapping | src/item/ItemComponentsTrait.php:80-86 | host head/chest/legs/feet map to the wearable head/chest/legs/feet slots, and any other slot maps to the generic armor slot |
| Defaults.InitArmor | src/item/ItemComponentsTrait.php:79-89 | an armor item gets the armor component with its defense points and the wearable component with its mapped slot; for other items both names keep their presence and their entries |
| Defaults.InitConsumable | src/item/ItemComponentsTrait.php:91-97 | a consumable gets the eat animation iff it is food, and drink otherwise; it gets a food component valued `!requiresHunger` iff it is food; its use duration is 20 |
| Defaults.InitConditional | src/item/ItemComponentsTrait.php:99-114 | durability (max durability) iff durable; projectile "projectile" and throwable true iff projectile; display name iff the name is not "Unknown"; fuel iff fuel time is positive |
| Defaults.SetUseDuration | src/item/ItemComponentsTrait.php:148-150 | the use-duration component holds the given ticks, and nothing else changes |
| Defaults.OverrideWins | src/item/ItemComponentsTrait.php:96-150 | a `setUseDuration` after `initComponent` replaces the default duration |
| Defaults.AllowOffHand | src/item/ItemComponentsTrait.php:132-134 | the allow-off-hand component holds the given flag (`DefaultOffHand`, true, for the argument-less call), and nothing else changes |
| Defaults.SetupRenderOffsets | src/item/ItemComponentsTrait.php:123-126 | render offsets hold width, height and the flag (`DefaultHandEquipped`, false, when not given); hand-equipped holds the flag unless the two classes share a name; nothing else changes |
| Defaults.SetUseCooldown | src/item/ItemComponentsTrait.php:140-142 | the cooldown's category is the given one when non-empty and the item's name when empty; its duration is the given one; nothing else changes |
| Pipeline.ChestArmorDescriptor | src/item/ItemComponentsTrait.php:49-115 | for a durable chest armor piece whose defaults all convert, starting from a never-written `$components`, the descriptor holds its durability, the chest wearable slot and its defense points, each where its property flag routes it, and always holds `item_properties` |
| EntityFactory.RegisterEntity | src/entity/CustomiesEntityFactory.php:44-50 | a registration the host accepts appends exactly one entry, the identifier, at the end, and leaves earlier entries unchanged; one the host rejects leaves the list unchanged |
| EntityFactory.RegisterAllAppends | src/entity/CustomiesEntityFactory.php:49 | a run of accepted registrations appends the identifiers in registration order |
| EntityFactory.RepeatedRegistrationKept | src/entity/CustomiesEntityFactory.php:44-49 | registering the same identifier twice adds one occurrence per call the host accepts, so two when it accepts both; there is no deduplication |
| EntityFactory.PushAll | src/entity/CustomiesEntityFactory.php:33-35 | pushing the entries one at a time yields the list followed by the entries |
| EntityFactory.UpdateStaticPacketCache | src/entity/CustomiesEntityFactory.php:23-37 | the patched `idlist` is the old list followed by every registered identifier in registration order |
| EntityFactory.PatchKeepsExisting | src/entity/CustomiesEntityFactory.php:33-35 | the entries already in `idlist` stay at their positions |
| EntityFactory.PatchWithoutRegistrations | src/entity/CustomiesEntityFactory.php:21-35 | with no registered entity the patch leaves `idlist` unchanged |
| EntityFactory.PatchTwice | src/entity/CustomiesEntityFactory.php:33-35 | patching twice appends every identifier twice, so with a registered entity the patch is not idempotent |
| EntityFactory.RegisterThenPatch | src/entity/CustomiesEntityFactory.php:21-50 | after registering a list (all accepted) and patching, `idlist` is the old list plus the registered identifiers, and each identifier's count is its old count plus its registration count |

## Left out

- Host entity registration: `EntityFactory::register` and the default creation closure (`CustomiesEntityFactory.php:45-47`) are calls into the host. `RegisterEntity` takes only whether that call returned (`accepted`) and models the append that follows it.
- Duplicate-identifier rejection: this happens inside the host factories, which are not part of this model. Its outcome reaches the model only as the `accepted` flag of `RegisterEntity`.
- The reflective access to the host's static packet cache and the final `setValue` write (`CustomiesEntityFactory.php:24-29,36`): the patch is modelled as its visible effect, the pushes onto `idlist`. The source makes that write with a single argument (`setValue($idList)`). In the host, `availableActorIdentifiers` is an instance property, and for an instance property the one-argument call throws after the pushes at :33-35 have already changed `idlist`. That exception is not modelled.
- The host's `ListTag` entries are compounds `{id: …}`. They are represented by their identifier strings.
- NBT byte encoding and the inside of the tag-type helper: the helper is the `conv` parameter. Tags are the four leaf kinds, so a composite tag the helper might build is not modelled.
- The cooldown duration is a float. It is carried as an opaque `Float` with no arithmetic.
- The text of the `RuntimeException` message is left out. The error carries only the component name.
- Insertion order of the component set and of the tree's keys: a PHP array keeps insertion order and a Dafny map does not. Only tree equality is modelled.
- `ItemRegistry` and `BlockRegistry` forward to host factories and hold no logic. `SingletonTrait` plumbing is also left out.
- Assembly.GetComponents: the failure names some component whose value does not convert, not necessarily the first in insertion order as in the source, because insertion order is not modelled.
- Defaults.InitStep: stated only for catalogs whose fifteen default class names are distinct, because those names are not part of this model. With a shared name the later addition wins, as `ComponentSets.AddAll` states.
- Defaults.InitAlwaysValues: the exact values need distinct class names, for the same reason. Presence alone is stated without that condition in `Defaults.InitAlwaysPresent`.
- Defaults.InitArmor: needs distinct class names, for the same reason.
- Defaults.InitConsumable: needs distinct class names, for the same reason. It also states the "food component iff food" direction only relative to the set before initialisation.
- Defaults.InitConditional: needs distinct class names, for the same reason. Each "iff" is stated for a name not already in the set before initialisation.
- EntityFactory.UpdateStaticPacketCache: assumes the cache root holds an `idlist` list tag. If it does not, `getListTag` (`CustomiesEntityFactory.php:32`) returns null or throws, and the push at :34 fails. That root is built by the host, so this path is not modelled.
- Pipeline.ChestArmorDescriptor: needs distinct class names and distinct host armor slot numbers, because both are parameters here.
