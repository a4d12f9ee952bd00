# A Dafny model of the inventory, chat commands and tile map of a browser world game

The game is a top-down multiplayer world built on a 2D engine. Three pieces of its client logic work on their own, without the engine, and are modelled here:

- **Inventory and shops** (`InventoryManager`). A 4×5 grid of 20 slots, each holding an item sprite or nothing. `addItem` fills the first empty slot and `removeItem` clears the first slot holding the item. A skin carousel of 16 entries and a house carousel of 4 entries wrap around at both ends. Three buttons switch the inventory, the skin shop and the house shop on and off. A price shown or charged is the known price, or 0 when the price is not known.
- **Chat commands** (`PlayerCommands`). Text that starts with `/` is a command. `/help` lists the commands; `help` is not itself an entry of the table. A fixed table of eight entries holds the other commands: seven teleport the player to fixed coordinates and `position` reports the player's position. Anything else is answered with `Unknown command: `.
- **Tile map** (`Game.create`). The map's CSV text is trimmed, split into rows at newlines and into cells at commas. Each cell becomes one 50×50 image, water for the cell `1` and grass for any other cell, placed row by row.

Modules:

- `Wrappers` (wrappers.dfy): `Option`, standing for JavaScript's `null`/`undefined`.
- `JsText` (js_text.dfy): the JavaScript string operations the code relies on. These are `trim`, `split` with a one-character separator, and the decimal text of an integer in a template literal. Each is paired with its inverse or a fixpoint lemma.
- `Inventory` (inventory.dfy): the slot table as a value (`Added`, `Removed`, `Filled`), the carousel arithmetic, and the panel state machine. The class `InventoryManager` holds the slot array, the slot offsets, the visibility flags, the carousel indices, the preview frames and the price labels.
- `Commands` (commands.dfy): the command table, `Classify`, which reads the typed text purely, the help text, and the class `PlayerCommands`, which changes a `Player` position or a `SpeechBubble` text.
- `TileMap` (tile_map.dfy): `ParseRows`, `Tiles` and the nested placement loops `CreateTiles`/`AddRow`.

Where the model differs from a literal reading:

- Each `InventorySlot` object is reduced to its `item` field, one element of the array `slots`. Its rectangle is reduced to an offset from the grid's origin.
- Item sprites are identities (`ItemId`), compared as `===` compares them.
- The buy buttons' captions are reduced to the price they show. `None` stands for the initial "Buy now" and "Buy House" captions.
- The price maps are constructor inputs. So are the initial visibility flags of the four panels.
- The command lookup `this.commands[command]` considers only the table's own eight keys. `for…in` visits those keys in declaration order, since none of them looks like an array index.

## Model

| member | source | states |
|---|---|---|
| `Inventory.CreateInventoryGrid` | src/game/InventoryManager.ts:63-76 | the row-then-column creation loop makes exactly 20 slots, and slot `i` sits at offset (`(i % 5) * 64`, `(i / 5) * 64`) from the grid origin |
| `Inventory.InventoryManager.constructor` | src/game/InventoryManager.ts:10-51 | a new manager has 20 empty slots in the grid layout, is closed, has both carousels at entry 0, both buy buttons showing their initial caption, and the given prices and visibility flags |
| `Inventory.InventoryManager.UpdateInventoryPosition` | src/game/InventoryManager.ts:157-167 | putting slot `i` at column `i % 5`, row `floor(i / 5)` reproduces the layout the creation loop made, so a resize leaves every slot offset unchanged |
| `Inventory.FirstEmptyFrom` | src/game/InventoryManager.ts:201 | the slot found is empty and every slot before it holds an item; no slot is found exactly when every slot holds an item |
| `Inventory.FirstHoldingFrom` | src/game/InventoryManager.ts:210 | the slot found holds the item and no earlier slot does; no slot is found exactly when no slot holds it |
| `Inventory.InventoryManager.FindEmptySlot` | src/game/InventoryManager.ts:201 | the linear search returns the lowest empty slot, or nothing when all 20 slots are filled |
| `Inventory.InventoryManager.FindSlotOf` | src/game/InventoryManager.ts:210 | the linear search returns the lowest slot holding the item, or nothing when no slot does |
| `Inventory.InventoryManager.SetSlotItem` | src/game/InventoryManager.ts:406-409 | the slot now holds the item and no other slot changes |
| `Inventory.InventoryManager.ClearSlotItem` | src/game/InventoryManager.ts:411-413 | the slot is now empty and no other slot changes |
| `Inventory.InventoryManager.AddItem` | src/game/InventoryManager.ts:200-207 | with an empty slot, the item goes into the lowest empty slot, every other slot is unchanged and the answer is true; with all 20 filled, the answer is false and nothing changes |
| `Inventory.InventoryManager.RemoveItem` | src/game/InventoryManager.ts:209-214 | only the first slot holding the item is cleared; when no slot holds it nothing changes |
| `Inventory.Filled` | src/game/InventoryManager.ts:200-207 | the number of filled slots never exceeds the number of slots |
| `Inventory.NoEmptySlotIffFull` | src/game/InventoryManager.ts:200-207 | `addItem` finds no empty slot if and only if every slot is filled |
| `Inventory.FilledUpdate` | src/game/InventoryManager.ts:406-413 | setting or clearing one slot changes the filled count by exactly that slot's change |
| `Inventory.AddedCount` | src/game/InventoryManager.ts:200-207 | a successful `addItem` fills exactly one more slot; a failing one leaves a full table unchanged |
| `Inventory.RemovedCount` | src/game/InventoryManager.ts:209-214 | removing a present item empties exactly one slot; removing an absent one changes nothing |
| `Inventory.RemoveUndoesAdd` | src/game/InventoryManager.ts:200-214 | removing an item that was not in the table right after adding it gives back the original table |
| `Inventory.JsRem` | src/game/InventoryManager.ts:252 | JavaScript's `%` agrees with the mathematical remainder for a non-negative dividend, and keeps the dividend's sign otherwise |
| `Inventory.NextIndex` | src/game/InventoryManager.ts:252 | `(i + 1) % n` stays in `[0, n)` and wraps the last index to 0 |
| `Inventory.PrevIndex` | src/game/InventoryManager.ts:258 | `(i - 1 + n) % n` stays in `[0, n)` and wraps 0 to the last index |
| `Inventory.PrevUndoesNext` | src/game/InventoryManager.ts:251-261 | `<` after `>` restores the index, and `>` after `<` does too |
| `Inventory.NextTimes` | src/game/InventoryManager.ts:251-255 | any number of `>` presses keeps the index in range |
| `Inventory.NextTimesNoWrap` | src/game/InventoryManager.ts:251-255 | before the end of the carousel, `k` presses advance exactly `k` places |
| `Inventory.NextTimesAdd` | src/game/InventoryManager.ts:251-255 | presses compose: `a` presses then `b` presses equal `a + b` presses |
| `Inventory.FullTurn` | src/game/InventoryManager.ts:251-255 | `n` presses on a carousel of `n` entries come back to the start |
| `Inventory.InventoryManager.NextSkin` | src/game/InventoryManager.ts:251-255 | the skin index moves to `NextIndex` of 16 and stays in `[0, 16)`; the preview and the buy button follow the new skin |
| `Inventory.InventoryManager.PrevSkin` | src/game/InventoryManager.ts:257-261 | the skin index moves to `PrevIndex` of 16 and stays in `[0, 16)`; the preview and the buy button follow the new skin |
| `Inventory.InventoryManager.UpdateSkinPreview` | src/game/InventoryManager.ts:263-265 | the preview shows the current skin's frame |
| `Inventory.InventoryManager.UpdateSkinShopDisplay` | src/game/InventoryManager.ts:302-309 | the buy button shows the current skin's price, or 0 when unknown, and the preview shows the current skin |
| `Inventory.InventoryManager.NextHouse` | src/game/InventoryManager.ts:338-341 | the house index moves to `NextIndex` of 4 and stays in `[0, 4)`; the preview and price follow |
| `Inventory.InventoryManager.PrevHouse` | src/game/InventoryManager.ts:343-346 | the house index moves to `PrevIndex` of 4 and stays in `[0, 4)`; the preview and price follow |
| `Inventory.InventoryManager.UpdateHousePreview` | src/game/InventoryManager.ts:348-352 | the preview shows the current house and the button its price, or 0 when unknown |
| `Inventory.PriceOrZero` | src/game/InventoryManager.ts:304 | `prices.get(id) \|\| 0` is the stored price when there is one, and 0 when the id is missing |
| `Inventory.InventoryManager.SelectedHousePrice` | src/game/InventoryManager.ts:355-356 | the price reported with a house purchase is the previewed house's price, or 0 when unknown |
| `Inventory.InventoryManager.Toggle` | src/game/InventoryManager.ts:174-178 | `isOpen` is negated and the inventory and sell area are shown exactly when the inventory is now open |
| `Inventory.InventoryManager.ToggleSkinShop` | src/game/InventoryManager.ts:180-186 | the skin shop's visibility flips; the house shop, inventory and sell area are hidden; `isOpen` is untouched |
| `Inventory.InventoryManager.ToggleHouseShop` | src/game/InventoryManager.ts:188-194 | the house shop's visibility flips; the skin shop, inventory and sell area are hidden; `isOpen` is untouched |
| `Inventory.ToggleProperties` | src/game/InventoryManager.ts:174-178 | `toggle` shows the inventory and sell area exactly when open, leaves the shops alone, and toggling twice restores `isOpen` |
| `Inventory.ShopToggleProperties` | src/game/InventoryManager.ts:180-194 | each shop toggle flips its own shop, hides the three other panels and keeps `isOpen` |
| `Inventory.AtMostOneShop` | src/game/InventoryManager.ts:174-194 | after any shop toggle at most one shop is visible, and `toggle` preserves that |
| `Inventory.BackpackAfterShopHidesInventory` | src/game/InventoryManager.ts:174-186 | when the inventory is open and either the skin shop or the house shop is toggled, the next backpack press closes the hidden inventory, and only a second press shows it again |
| `Commands.Lookup` | src/game/PlayerCommands.ts:50 | the entry returned carries the looked-up name and is in the table; nothing is returned exactly when no entry has that name |
| `Commands.LookupFinds` | src/game/PlayerCommands.ts:50 | the lookup returns the first entry with the name |
| `Commands.TableKeysDistinct` | src/game/PlayerCommands.ts:9-42 | the eight keys are distinct, so a name selects at most one command |
| `Commands.Classify` | src/game/PlayerCommands.ts:45-55 | text without a leading `/` is not a command; `/help` and only it is help; a run command is exactly `/` followed by a key; everything else after `/` is unknown and names no key and not `help` |
| `Commands.HomeTeleports` | src/game/PlayerCommands.ts:10-13 | `/home` runs the command that teleports to (9600, 8960) |
| `Commands.ExilTeleports` | src/game/PlayerCommands.ts:30-33 | `/exil` runs the command that teleports to (18280, 881) |
| `Commands.TrailingSpaceIsUnknown` | src/game/PlayerCommands.ts:47-53 | matching is exact: `/home ` is unknown, with the name `home ` |
| `Commands.HelpIsNotAKey` | src/game/PlayerCommands.ts:48-49 | `/help` shows the help text although `help` is not a key of the table |
| `Commands.HelpLinesAsJoin` | src/game/PlayerCommands.ts:59-62 | the accumulated lines are the `/<cmd>: <description>` entries joined with newlines, with a final newline |
| `Commands.HelpTextLines` | src/game/PlayerCommands.ts:58-63 | read line by line, the help text of a table without newlines is `Available commands:`, then one line per entry in table order, and nothing after the last newline |
| `Commands.TableHasNoNewlines` | src/game/PlayerCommands.ts:9-42 | no key or description of the game's table contains a newline |
| `Commands.TableHelpTextLines` | src/game/PlayerCommands.ts:58-63 | the game's own help text splits into `Available commands:`, the eight `/<cmd>: <description>` lines in declaration order, and an empty remainder |
| `Commands.PlayerCommands.constructor` | src/game/PlayerCommands.ts:6-43 | the dispatcher holds the given player and speech bubble and the eight-entry table |
| `Commands.PlayerCommands.ExecuteCommand` | src/game/PlayerCommands.ts:45-56 | no leading `/` changes nothing; `/help` shows the help text; a teleport key moves the player to its fixed coordinates; `/position` shows `x: <x> y: <y>` and leaves the player in place; anything else shows `Unknown command: ` and the text |
| `Commands.PlayerCommands.Run` | src/game/PlayerCommands.ts:10-41 | a teleport sets the player position and leaves the bubble alone; the position command sets the bubble's text from the unchanged position |
| `Commands.PlayerCommands.ShowHelp` | src/game/PlayerCommands.ts:58-64 | the loop builds exactly the help text of the table: the header and one line per entry in order |
| `Commands.SpeechBubble.SetText` | src/game/SpeechBubble.ts:27-28 | the bubble shows the given text |
| `JsText.TrimStart` | src/game/scenes/Game.ts:26 | what is dropped from the front is whitespace, and the result does not start with whitespace |
| `JsText.TrimEnd` | src/game/scenes/Game.ts:26 | what is dropped from the back is whitespace, and the result does not end with whitespace |
| `JsText.Trim` | src/game/scenes/Game.ts:26 | the trimmed text neither starts nor ends with whitespace |
| `JsText.TrimIsSlice` | src/game/scenes/Game.ts:26 | the trimmed text is a contiguous slice of the input, and everything dropped before and after it is whitespace |
| `JsText.TrimIdempotent` | src/game/scenes/Game.ts:26 | trimming twice is trimming once |
| `JsText.Split` | src/game/scenes/Game.ts:26 | `split` gives at least one piece, none holding the separator, and joining the pieces with the separator rebuilds the input |
| `JsText.SplitJoin` | src/game/scenes/Game.ts:26 | splitting a join of separator-free pieces gives the pieces back |
| `JsText.IntTextRoundTrip` | src/game/PlayerCommands.ts:40 | the decimal text of a coordinate reads back as the same integer |
| `TileMap.ParseRows` | src/game/scenes/Game.ts:25-26 | the parse gives at least one row, and every row has at least one cell (a blank line is the row `[""]`); no cell holds a comma or newline; joining the cells back with commas and newlines rebuilds the trimmed input |
| `TileMap.ParseJoinRows` | src/game/scenes/Game.ts:26 | parsing the text of a grid of separator-free cells gives that grid back, when the first cell starts and the last cell ends with a character `trim` keeps |
| `TileMap.CellTextures` | src/game/scenes/Game.ts:33 | only the exact cell `1` is water; `0`, the empty cell, `1\r` and ` 1` are grass |
| `TileMap.TileCount` | src/game/scenes/Game.ts:29-37 | exactly one image is made per cell, so the count is the sum of the row lengths |
| `TileMap.TileIndex` | src/game/scenes/Game.ts:22-35 | the image for row `r`, column `c` comes after all cells of earlier rows and has centre (`c*50 + 25`, `r*50 + 25`) and that cell's texture |
| `TileMap.RowMajorOrder` | src/game/scenes/Game.ts:29-30 | cells of earlier rows, and earlier cells of the same row, get earlier images |
| `TileMap.CreateTiles` | src/game/scenes/Game.ts:25-37 | the nested loops add exactly the images `Tiles` describes for the parsed map |
| `TileMap.AddRow` | src/game/scenes/Game.ts:30-36 | the inner loop appends exactly the images of one row, left to right |
| `Inventory.SlotOffset` | src/game/InventoryManager.ts:163-165 | reference definition, no contract: slot `i` at column `i % 5` and row `floor(i / 5)`, 64 pixels apart |
| `Inventory.Added` | src/game/InventoryManager.ts:200-207 | reference definition, no contract: the table with the item in the first empty slot, or unchanged when full |
| `Inventory.Removed` | src/game/InventoryManager.ts:209-214 | reference definition, no contract: the table with the first slot holding the item cleared, or unchanged |
| `Inventory.Toggled` | src/game/InventoryManager.ts:174-178 | reference definition, no contract: the panels after the backpack button |
| `Inventory.SkinShopToggled` | src/game/InventoryManager.ts:180-186 | reference definition, no contract: the panels after the shirt button |
| `Inventory.HouseShopToggled` | src/game/InventoryManager.ts:188-194 | reference definition, no contract: the panels after the house button |
| `Commands.Table` | src/game/PlayerCommands.ts:9-42 | reference definition, no contract: the eight commands with their descriptions and fixed coordinates, in declaration order |
| `Commands.HelpText` | src/game/PlayerCommands.ts:58-63 | reference definition, no contract: the header line, then `/<cmd>: <description>` and a newline per entry |
| `Commands.PositionText` | src/game/PlayerCommands.ts:40 | reference definition, no contract: `x: <x> y: <y>` |
| `JsText.IntText` | src/game/PlayerCommands.ts:40 | the decimal text of an integer, with a leading `-` for negative values |
| `TileMap.CellTexture` | src/game/scenes/Game.ts:33 | reference definition, no contract: water for the cell `1`, grass otherwise |
| `TileMap.TileAt` | src/game/scenes/Game.ts:31-35 | reference definition, no contract: the image centred in the cell's 50×50 square |
| `TileMap.Tiles` | src/game/scenes/Game.ts:29-37 | reference definition, no contract: the images of all rows, top to bottom, each row left to right |

## Left out

- HTTP traffic: `fetchPrices`, `fetchSkinPrices`, `fetchHousePrices`, `buySkin` and `buyHouse` are asynchronous requests whose answers arrive in any order. The price maps are fixed inputs instead. The update made when `buySkin` or `buyHouse` succeeds (new money, new sprite frame, emitted events) is not modelled.
- Engine geometry: absolute pixel positions (`width / 2` can be fractional), `contains`, `isPointInInventory` and `isSellArea`, which ask the engine for bounds, `updateButtonPositions`, `updateSellAreaPosition`, and where a sprite is placed when it is put into a slot. Only offsets from the grid origin are modelled.
- Container creation, including `createSkinShop` and `createHouseShop` replacing the shop containers created in `initializeContainers`, and `createButton`, `createMoneyDisplay`, `createSellArea` and `updateMoneyDisplay`. These only wire display objects.
- Numbers: prices and positions are integers. JavaScript numbers can be fractional, and their text above 10^21 uses exponent notation.
- `Commands.Lookup`: the JavaScript object lookup could also find inherited keys such as `constructor`. The model looks only at the table's eight keys.
- The speech bubble's background size depends on measured text width, and its typing timer is a callback. Only its text is modelled.
- The engine bootstrap, the asset preloader, the login component and the player sprite's offsets contain nothing to state.
- Only the exact cell `1` is water, so a map file with CRLF line endings makes the last cell of every row but the last grass, even when it reads `1`; `trim` removes the final `\r`. `TileMap.CellTextures` states this behaviour; whether the map files use CRLF is not part of this model.
