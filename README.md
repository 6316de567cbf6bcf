# melange in Dafny

A Dafny model of the core of melange, the desktop-widget host of the Cream desktop. It covers:

- **The widget layer** (`Layer`): the window that hosts every widget view. It has a three-state
  move mode (`STATE_NONE`, `STATE_MOVE`, `STATE_MOVING`). The mode is driven by the Super_L key with
  modifier masks 0, 64 or 320 and by mouse buttons on a view. The layer also keeps the ordered list
  of hosted widgets.
- **The widget registry** (`Registry`): maps instance ids to widgets and widgets to their five signal
  handler ids. It covers `add`, `remove`, and the raise, move, remove and reload request callbacks.
  A move request is clamped on screen.
- **The HTTP content server** (`HttpServer`). It covers:
  - the `route` decorator and the collection of routed methods in `dir()` order;
  - first-match dispatch and first-value query parsing;
  - the extension-based MIME guess;
  - path resolution for the `/data/`, `/widget/`, `/common/` and `/theme/` handlers;
  - the 404 / 500 / 200 decision with its headers.
- **The add-widget dialog** (`Dialogs`): `split_string`, which breaks a description into lines of
  about thirty characters, and the grouping of widget manifests by category.
- **The legacy module** (`Legacy`, the top-level melange.py): an unclamped registry, the
  normal/edit `mode` toggle of the overlay and the middle-button `_edit_mode` flag.
- **Shared pieces**: an `Option` type (`Wrappers`), Python string helpers (`Text`: `startswith`,
  `endswith`, `join`, `str` of a natural number with its round trip) and the widget object as the
  registry sees it (`Widgets`). The widget keeps its position, its size and its connected handlers.

State that the source changes in place is modelled as classes:

- the layer's `mode` and `widgets`;
- the registry's dictionaries;
- a widget's handlers and position;
- the dialog's category map;
- the overlay's modes.

Each method is stated against a specification function, such as `Layer.Next` for one input event,
`Layer.RemoveFirst` for `list.remove`, `Registry.Clamp`, `Dialogs.Layout`, `HttpServer.FirstMatch`
and `HttpServer.Serve`. The properties are then proved about those functions.

Calls into code outside the core are appended, in order, to ghost logs: `Layer.WidgetLayer.calls`,
`Registry.WidgetManager.effects`, `Legacy.WidgetManager.effects` and `Legacy.Melange.chrome`. These
calls are:

- `begin_move`/`end_move` and cursor changes on a widget's view;
- the layout container's `add`/`remove`/`raise_child`/`move`;
- `emit`;
- `widget.remove()`/`widget.load()`;
- the overlay's slide, show-desktop and background calls.

A widget's identity is its Dafny object reference, as Python's `list.remove` and dictionary keys
use it for these objects.

The HTTP server sees the application through a `Host` value. A `Host` holds:

- the registered widgets' data and skin paths and current themes;
- the application path;
- the themes and the configured default theme;
- which files exist, with their sizes. This stands in for `open` and `os.path.getsize`.

## Model

| member | source | states |
|---|---|---|
| Layer.ModeSteps | src/melange.py:125-165 | keys other than Super_L with an accepted mask leave the mode unchanged; `STATE_MOVING` never drops straight to `STATE_NONE`; move mode is entered only by the gesture key or from `STATE_MOVING`; a button press changes the mode only in `STATE_MOVE`; releases in `STATE_NONE` change nothing; a Super_L release in `STATE_MOVING` goes back to `STATE_MOVE` with no end-move notification |
| Layer.EndsIffLeavesMoveMode | src/melange.py:135-165 | the end-move notification pass happens exactly when the mode goes from a move state to `STATE_NONE` |
| Layer.MovingMeansButtonHeld | src/melange.py:147-165 | after any event sequence, `STATE_MOVING` means that some button press found the layer in `STATE_MOVE` and only inert events (other keys, further presses) followed |
| Layer.ButtonHeldMeansMoving | src/melange.py:147-165 | conversely, such a press followed only by inert events leaves the layer in `STATE_MOVING` |
| Layer.ArmedOnlyByModifier | src/melange.py:125-131 | starting from `STATE_NONE`, the layer leaves it only if a Super_L press with an accepted mask occurred |
| Layer.Next | src/melange.py:125-165 | the move mode after one key or button event, as the four callbacks change it; its transitions are stated by `Layer.ModeSteps` |
| Layer.Run | src/melange.py:125-165 | the move mode after a sequence of events; stated by `Layer.MovingMeansButtonHeld`, `Layer.ButtonHeldMeansMoving` and `Layer.ArmedOnlyByModifier` |
| Layer.Notified | src/melange.py:130-132 | a notification pass makes exactly two calls per hosted widget |
| Layer.NotifiedOrder | src/melange.py:130-132 | the calls come in list order: widget `i`'s begin or end move is call `2i`, and its FLEUR or default cursor change is call `2i + 1` |
| Layer.RemoveFirst | src/melange.py:182 | `list.remove`: drops the first occurrence and keeps the others in order, as a slice around the first index holding the element; an absent element leaves the list as it is |
| Layer.RemoveFirstMultiset | src/melange.py:182 | removing takes exactly one copy of the element out of the list's multiset (none when it is absent) |
| Layer.RemoveFirstOfAppended | src/melange.py:182 | removing an element that was just appended to a list not holding it gives the list back |
| Layer.WidgetLayer.NotifyAll | src/melange.py:130-132 | the loop over `widgets` appends exactly `Notified(widgets, begin)` to the call log |
| Layer.WidgetLayer.KeyPress | src/melange.py:125-131 | the new mode is `Next` of the old one; a gesture key press notifies every widget of the begin of a move, any other key press notifies none |
| Layer.WidgetLayer.KeyRelease | src/melange.py:135-144 | the new mode is `Next` of the old one; end-move notifications happen only when leaving `STATE_MOVE` |
| Layer.WidgetLayer.ButtonPress | src/melange.py:147-152 | the new mode is `Next` of the old one; it returns True exactly when the layer was in `STATE_MOVE` |
| Layer.WidgetLayer.ButtonRelease | src/melange.py:155-165 | the new mode is `Next` of the old one; it notifies end of move when leaving `STATE_MOVE`; it returns True exactly when the layer was in `STATE_MOVING` |
| Layer.WidgetLayer.AddWidget | src/melange.py:169-177 | the widget is appended to `widgets` and the view is added to the layout at the widget's position |
| Layer.WidgetLayer.RemoveWidget | src/melange.py:180-185 | `widgets` becomes `RemoveFirst` of the old list; the view is removed from the layout only when the widget was hosted (otherwise `ValueError`, reported as `found == false`) |
| Layer.WidgetLayer.RaiseWidget | src/melange.py:188-191 | only the layout's raise call is made; `widgets` is unchanged |
| Layer.WidgetLayer.MoveWidget | src/melange.py:194-197 | only the layout's move call is made; `widgets` is unchanged |
| Widgets.Widget.Connect | src/melange.py:287-291 | `widget.connect` returns a fresh handler id bound to the signal; no other handler changes |
| Widgets.Widget.Disconnect | src/melange.py:338-341 | `widget.disconnect` removes exactly that handler id |
| Registry.Clamp | src/melange.py:313-314 | the clamped coordinate lies in `[0, max(0, screen - size)]`; a target already in range is kept; one below 0 gives 0; one beyond the far edge gives the far edge |
| Registry.ClampIsNearest | src/melange.py:313-314 | no in-range position is closer to the requested one than the clamped position |
| Registry.ClampStable | src/melange.py:313-314 | clamping an already clamped position with a zero delta changes nothing |
| Registry.WidgetManager.Add | src/melange.py:280-298 | stores the widget under its instance id, overwriting any earlier entry; records five fresh handler ids, one per signal; sets the position only when both x and y are truthy; appends the widget to the layer list; emits `widget-added` |
| Registry.WidgetManager.Subscribe | src/melange.py:287-291 | the five `connect` calls: five distinct handler ids not in use before, each recorded against its own signal, and the widget's other subscriptions kept |
| Registry.WidgetManager.RaiseRequest | src/melange.py:301-303 | forwards to the layer's raise and changes nothing else |
| Registry.WidgetManager.MoveRequest | src/melange.py:310-317 | the new position is `Clamp` of the old position plus the delta in each axis, so it stays in `[0, max(0, screen - size)]`; the layer is told to move the view there |
| Registry.WidgetManager.Remove | src/melange.py:334-343 | an unknown id raises `KeyError` and changes nothing; otherwise the id is deleted, no other entry changes, exactly four handlers are disconnected (reload-request stays connected), and `widget-removed` is emitted |
| Registry.WidgetManager.RemoveRequest | src/melange.py:320-324 | the registry entry and the layer entry are removed and `widget.remove()` is called, in that order. A `KeyError` in `remove` stops the rest; widget handlers, effects and layer are then unchanged. A `ValueError` from the layer (widget not hosted) comes after `remove` finished: four handlers are already disconnected and `widget-removed` emitted, but the layer is unchanged and `widget.remove()` is not called |
| Registry.WidgetManager.ReloadRequest | src/melange.py:327-331 | the registry is untouched; a hosted widget moves to the end of the layer list after `widget.load()`; an unhosted one raises `ValueError`, and then the layer list, the layer's call log and the effects are all unchanged |
| Registry.AddThenRemoveRequest | src/melange.py:280-343 | adding a widget and then handling its remove request restores both the registry and the layer list, and leaves only the reload-request handler connected |
| Registry.OnlyReloadSurvives | src/melange.py:287-341 | of the five fresh subscriptions `add` makes, the four that `remove` disconnects leave exactly the reload-request one |
| Legacy.WidgetManager.Add | melange.py:95-104 | stores the widget under its instance id, overwriting any earlier entry; connects two fresh handlers; sets the position only when both x and y are truthy; emits `window-added` |
| Legacy.WidgetManager.MoveRequest | melange.py:107-113 | the new position is exactly the old position plus the delta, unclamped |
| Legacy.WidgetManager.Remove | melange.py:124-125 | deletes only the widget's instance id; reports whether it was present (`KeyError` otherwise) |
| Legacy.WidgetManager.RemoveRequest | melange.py:116-121 | emits `window-removed`, then calls `widget.remove()`, then deletes the id |
| Legacy.Toggled | melange.py:276-285 | toggling always changes the mode |
| Legacy.ToggleTwice | melange.py:276-285 | two toggles restore the original mode |
| Legacy.Melange.ToggleOverlay | melange.py:273-285 | flips `mode`; entering edit mode slides in, shows the desktop and shows the background, and leaving it does the reverse |
| Legacy.ToggleOverlayTwice | melange.py:273-285 | two calls of `toggle_overlay` restore the mode |
| Legacy.Melange.ButtonPress | melange.py:301-344 | always focuses and presents the window. Exactly in edit mode with the middle button, it sets the edit mode to move and `start_move` moves the widget once. Then the callback fails with `AttributeError`, because the registry has no `iteritems`, so `return True` is never reached. Otherwise it returns `None` and changes nothing else |
| Legacy.Melange.ButtonRelease | melange.py:313-317 | the middle button resets the edit mode and returns True; any other button changes nothing |
| Dialogs.Words | src/melange/dialogs.py:109 | `str.split()` yields non-empty words without whitespace |
| Dialogs.NoWordsIffBlank | src/melange/dialogs.py:109 | there are no words exactly when the description is empty or all whitespace |
| Dialogs.LayoutProperties | src/melange/dialogs.py:107-114 | the non-newline tokens are exactly the words, in order; a newline token stands exactly where more than thirty characters have been counted since the last one; no newline token is first or last; no words give no tokens |
| Dialogs.LayoutUnique | src/melange/dialogs.py:107-114 | those properties determine the token list: any list that has them is the layout |
| Dialogs.Layout | src/melange/dialogs.py:107-114 | the token list `lst` that `split_string`'s loop builds from the words; characterised by `Dialogs.LayoutProperties` and `Dialogs.LayoutUnique` |
| Dialogs.SplitString | src/melange/dialogs.py:105-116 | the loop's result is the space-joined layout of the description's words; a blank description gives the empty string |
| Dialogs.FiledAt | src/melange/dialogs.py:48-52 | filing a widget under categories appends it to each listed one (once per listing) and changes no other category |
| Dialogs.GroupingMembers | src/melange/dialogs.py:39-44 | after the grouping loop each category holds exactly the widgets that list it, in input order; a category is present exactly when some widget is filed under it |
| Dialogs.Grouping | src/melange/dialogs.py:39-52 | the category map after the corrected grouping loop; stated by `Dialogs.GroupingMembers` against the independent `Members` |
| Dialogs.GroupingAsWritten | src/melange/dialogs.py:39-52 | the grouping loop as written, which fails on a missing or `None` `categories` entry; stated by `Dialogs.AsWrittenFailsOnMissingCategories` |
| Dialogs.UncategorisedIsMiscellaneous | src/melange/dialogs.py:40-42 | a widget with a falsy `categories` entry is filed under the miscellaneous category only |
| Dialogs.AsWrittenFailsOnMissingCategories | src/melange/dialogs.py:39-44 | the loop as written agrees with the corrected grouping, except that it fails as soon as one widget has a missing or `None` `categories` entry |
| Dialogs.MissingCategoriesCounterexample | src/melange/dialogs.py:40-43 | a single manifest without `categories` makes the loop as written fail; the corrected grouping files it under the miscellaneous category |
| Dialogs.AddWidgetDialog.constructor | src/melange/dialogs.py:39-44 | the corrected grouping loop, which files a widget without categories under the miscellaneous one and carries on, builds exactly `Grouping(widgets)` (the code as written is `Dialogs.GroupingAsWritten`; see Findings) |
| Dialogs.AddWidgetDialog.AddToCategory | src/melange/dialogs.py:48-52 | appends the widget to the category's list, creating a one-element list if needed; other categories are unchanged |
| Text.Join | src/melange/dialogs.py:116 | `sep.join`: empty for no parts, the part itself for one, starting with the first part and separator otherwise |
| Text.DecimalString | src/melange/httpserver.py:81 | `str(size)` is a non-empty string of digits without a leading zero |
| Text.DecimalRoundTrip | src/melange/httpserver.py:81 | reading the digits of `str(size)` back gives the size |
| HttpServer.Split | src/melange/httpserver.py:35-36 | `str.split(c)` gives at least one piece and no piece contains the separator |
| HttpServer.SplitJoin | src/melange/httpserver.py:35-36 | joining the pieces with the separator gives the string back |
| HttpServer.Pieces | src/melange/httpserver.py:35-36 | the candidates of `parse_qs` contain neither `&` nor `;` |
| HttpServer.Unquote | src/melange/httpserver.py:35-36 | percent-decoding never lengthens a string and leaves one without `%` unchanged |
| HttpServer.PairOf | src/melange/httpserver.py:35-36 | a candidate yields a pair exactly when it has an `=` followed by a non-empty value |
| HttpServer.GroupValues | src/melange/httpserver.py:35-36 | `parse_qs` lists for each name exactly its values in order, and has a name exactly when some pair carries it |
| HttpServer.QueryFirstWins | src/melange/httpserver.py:34-36 | `query_string_to_dict` has a name exactly when some pair carries it, and maps it to the value of the first such pair |
| HttpServer.SinglePairQuery | src/melange/httpserver.py:34-36 | a query holding one plain `name=value` pair, such as `instance=<id>`, parses to exactly that pair |
| HttpServer.QueryStringToDict | src/melange/httpserver.py:34-36 | `query_string_to_dict`: the first value `parse_qs` collects for each name; its properties are stated by `HttpServer.QueryFirstWins` and `HttpServer.SinglePairQuery` |
| HttpServer.GuessIsFirstMatch | src/melange/httpserver.py:38-46 | the guess is the type of the first listed extension the file name ends with, and none when no extension matches |
| HttpServer.ExtensionsExclusive | src/melange/httpserver.py:39-44 | a file name ends with at most one listed extension, so the table order never changes the guess |
| HttpServer.MakeStupidMimetypeGuess | src/melange/httpserver.py:38-46 | the scan with early return computes the guess; it returns a type exactly when some extension matches |
| HttpServer.GuessIn | src/melange/httpserver.py:39-46 | the scan of `make_stupid_mimetype_guess` over a type table; its meaning, the first entry whose extension ends the name, is stated by `HttpServer.GuessIsFirstMatch` |
| HttpServer.Guess | src/melange/httpserver.py:38-46 | `make_stupid_mimetype_guess` over the source's table; at most one entry can match (`HttpServer.ExtensionsExclusive`) |
| HttpServer.UpToNewline | src/melange/httpserver.py:111-124 | the `.*` capture is the longest prefix of the rest of the path without a newline |
| HttpServer.Route | src/melange/httpserver.py:26-32 | the decorator gives the function a route list if it has none, appends the pattern and changes nothing else |
| HttpServer.StackedRoutes | src/melange/httpserver.py:26-32 | stacked decorators apply bottom-up, so the pattern written lowest comes first |
| HttpServer.RoutedIsOrderedFilter | src/melange/httpserver.py:52-58 | `_get_routed` keeps exactly the attributes that carry routes, in `dir()` order, so the result is sorted by name whenever the attributes are |
| HttpServer.Routed | src/melange/httpserver.py:52-58 | `_get_routed`: the attributes that carry routes, in `dir()` order; stated by `HttpServer.RoutedIsOrderedFilter` |
| HttpServer.Framework.GetRouted | src/melange/httpserver.py:52-58 | the loop builds exactly the routed filter; every kept attribute has routes |
| HttpServer.Framework.constructor | src/melange/httpserver.py:49-50 | `routed_methods` is `_get_routed()` over the attributes |
| HttpServer.FirstRouteMatchIsFirst | src/melange/httpserver.py:92-95 | within one function, the first matching route supplies the captures, and none matches exactly when no route does |
| HttpServer.FirstMatchIsFirst | src/melange/httpserver.py:89-96 | dispatch finds nothing exactly when no route of any routed function matches; otherwise it returns the earliest function with a matching route, and no earlier function has one |
| HttpServer.FirstMatch | src/melange/httpserver.py:89-96 | `dispatch`: the first routed method, in order, with a matching route, with that route's captures; stated by `HttpServer.FirstMatchIsFirst` |
| HttpServer.Framework.Dispatch | src/melange/httpserver.py:89-96 | the nested scan with early return computes `FirstMatch` on `PATH_INFO`, which defaults to the empty path |
| HttpServer.PathJoinProperties | src/melange/httpserver.py:113-127 | `os.path.join` puts a relative name under the directory, with one `/` between them; an absolute name replaces the directory |
| HttpServer.PathJoin | src/melange/httpserver.py:113-127 | `os.path.join` of two components; stated by `HttpServer.PathJoinProperties` |
| HttpServer.BaseDirectory | src/melange/httpserver.py:104-127 | the directory each handler opens its file under: the instance's data or skin path, the common data directory, or the current or default theme's path; no directory when the instance or theme lookup would raise; stated by `HttpServer.InvokeResolves` |
| HttpServer.Invoke | src/melange/httpserver.py:111-127 | calling the matched handler with the query and the captures: it opens the captured file under `BaseDirectory`, or faults; stated by `HttpServer.InvokeResolves` |
| HttpServer.WidgetTheme | src/melange/httpserver.py:104-109 | a non-empty `instance` selects that widget's current theme, and fails when the instance is unknown; otherwise the configured default theme is used |
| HttpServer.Open | src/melange/httpserver.py:113-127 | `open` yields the file exactly when it exists, with its name and size |
| HttpServer.InvokeResolves | src/melange/httpserver.py:111-127 | a handler call opens the captured file under its base directory, and yields a file exactly when that directory resolves and the file exists; data and skin files need a registered `instance` |
| HttpServer.NotFound | src/melange/httpserver.py:70-72 | the corrected 404 response announces the length of its own body |
| HttpServer.NotFoundLengthMismatch | src/melange/httpserver.py:71-72 | the 404 response as written announces 13 bytes for the nine-byte body `Not Found` |
| HttpServer.NotFoundAsWritten | src/melange/httpserver.py:70-72 | the 404 response as the code builds it (status, `Content-Length: 13`, body `Not Found`); what is wrong with it is stated by `HttpServer.NotFoundLengthMismatch` |
| HttpServer.ServerError | src/melange/httpserver.py:75-77 | the 500 response announces the 21 bytes of `Internal Server Error` |
| HttpServer.Respond | src/melange/httpserver.py:73-87 | a fault gives 500 and anything else 200; a file gets its size as `Content-Length`, and `Content-Type` exactly when the guess has one; any other value gets no headers; every announced length is right |
| HttpServer.Serve | src/melange/httpserver.py:63-87 | the corrected `__call__` decision, with the 404 of `NotFound`: 404 exactly when no route matches; 500 exactly when the matched handler faults; 200 otherwise; every announced `Content-Length` is right (as written, the 404's is not; see `HttpServer.ServeAsWritten`) |
| HttpServer.AsWrittenDiffersOnlyOn404 | src/melange/httpserver.py:69-72 | the server as written differs from the corrected one only in the 404 response's announced length, which is wrong |
| HttpServer.ServeAsWritten | src/melange/httpserver.py:63-87 | `__call__` as written: 404 exactly when no route matches; the announced `Content-Length` is right exactly when some route matches, and wrong on every 404 |
| HttpServer.Framework.Call | src/melange/httpserver.py:63-87 | the WSGI entry point with the corrected 404: it computes `Serve` over the routed methods; on a routed path this is exactly the response of the code as written (`ServeAsWritten`), and on an unrouted one the same body with the honest length |
| HttpServer.ServerRouted | src/melange/httpserver.py:111-127 | the server routes the common, data, theme and widget handlers, in that order |
| HttpServer.ServerDispatch | src/melange/httpserver.py:111-127 | a path is served by the handler whose prefix it starts with; the four prefixes never overlap; any other path is not routed |
| HttpServer.DataRequest | src/melange/httpserver.py:111-113 | a `/data/` request for a registered instance gets its file with 200 and the file's size, or 500 when the file is missing; no `instance` or an unknown one gives 500 |
| HttpServer.DefaultThemeRequest | src/melange/httpserver.py:124-127 | a `/theme/` request without `instance` is served from the default theme's directory, with 500 when the file is missing |
| HttpServer.AbsoluteCaptureEscapes | src/melange/httpserver.py:111-113 | an absolute capture such as `/data//etc/passwd` opens that absolute path, whatever the data directory |
| HttpServer.NotFoundCounterexample | src/melange/httpserver.py:69-72 | for the path `/`, the server as written answers with the wrong length; the corrected one answers with `NotFound` |
| HttpServer.NewServer | src/melange/httpserver.py:48-127 | building the melange server yields exactly the four routed handlers, in `dir()` order |

## Left out

- Drawing is not modelled: cairo and GTK, `expose_cb`, `WidgetLayerCanvas`, `show_all`. The FLEUR
  and default cursors appear only as entries in the call log.
- The JavaScript-context `mouseleave` workarounds in `enter_notify_cb` and `leave_notify_cb` are not
  modelled. They reach into a foreign engine.
- The overlay fade is not modelled: its timeline callbacks, opacity and sine curve. `toggle_overlay`
  of src/melange.py (the animated one) is not part of this model. The legacy `toggle_overlay` is
  modelled without its fade.
- Threads and sleeping are not modelled: `run_server`, bjoern's `run` and `time.sleep(.02)`.
  `HttpServer.Framework.Call` handles one request.
- Opening files and `os.path.getsize` are replaced by `Host.files`, an oracle for which files
  exist and their sizes. File contents are not modelled.
- `Host` is a snapshot of the melange object's state when a request is made. Concurrent changes to
  the registry are not modelled.
- Discovery, configuration, hotkeys and IPC are not part of this model: the manifest database,
  `load_widget`, `list_widgets`, the menu and the hotkey recorder.
- Legacy.Melange.ButtonPress: `start_move` is modelled only up to its failure. The model records
  the first `set_position` (the pointer and the widget's position are foreign) and then the
  `AttributeError` at `self.widgets.iteritems()`. The floating-point edge distances after it, whose
  results are unused, and the `timeout_add` rescheduling are never reached.
- The dialog's list store, pixbufs, selection and info bar are not modelled. They are UI.
- `WidgetManager.end_move_cb` is only connected (its handler id is recorded). Its body does nothing.
- Regular expressions are modelled only in the shape the handlers use, `<literal prefix>(?P<name>.*)`,
  anchored at the start as `re.match` is. Other regexes are not modelled.
- HttpServer.Route: the decorator updates the function's `__bjoern_routes__` list in place. The model
  returns the updated attribute as a value, because nothing else refers to the function while the
  class body is decorated.
- HttpServer.SERVER_ATTRIBUTES lists the methods of `HttpServer` and `SmallWebFramework` only. The
  attributes inherited from `object` carry no routes, so they do not change `routed_methods`.
- `themes.get_by_id` is not part of this model. An unknown default theme is modelled as a handler
  fault, since `None['path']` raises.
- The categories listed in a manifest are modelled by their `id` values. An entry without `id`
  (a `KeyError`) is not modelled.
- `CommonWidgetManager.move_request_cb` (melange.py:130-136) has the same body as the legacy
  `WidgetManager.move_request_cb`. `Legacy.WidgetManager.MoveRequest` stands for both.
- Widget handler ids are fresh natural numbers. GObject's actual id allocation is not modelled.
- HttpServer.Framework.Call: answers an unrouted path with the corrected 404 (`Content-Length: 9`).
  The code as written sends 13; that response is `HttpServer.ServeAsWritten`, and Call's contract
  ties the two together (see Findings).
- Manifest descriptions are modelled as byte strings (Python 2 `str`). `Dialogs.IsSpace` is the six
  ASCII whitespace characters `str.split()` breaks on, and `Dialogs.Running` counts one per
  character as `len` does on bytes. A `unicode` description would split on more whitespace and
  count code points; that case is not modelled.

The model follows the code in these places, where it does something other than its names or comments
suggest:

- `add` does not reject an instance id that is already registered. It overwrites the entry.
- A missing file or an unknown instance gives a 500 response, not a 404.
- `remove` leaves `reload-request` connected and keeps the `signal_handlers` entry.
- `raise_widget` does not reorder the layer's `widgets` list.
- `/data/` and similar handlers do not confine the captured name to the widget's directory. See
  `HttpServer.AbsoluteCaptureEscapes`.
- A Super_L release in `STATE_MOVING` (a button still held) moves the layer back to `STATE_MOVE`
  without any end-move notification. See `Layer.ModeSteps`.
- The legacy `button_press_cb` never returns True for the middle button in edit mode: `start_move`
  raises `AttributeError` first. See `Legacy.Melange.ButtonPress`.

## Findings

| source | as written | input that shows it | evidently intended | confidence | as-written member | corrected member |
|---|---|---|---|---|---|---|
| src/melange/httpserver.py:71-72 | the 404 response sends `Content-Length: 13` with the nine-byte body `Not Found` (13 is the length of `404 Not Found`) | any request whose path starts with none of `/data/`, `/widget/`, `/common/`, `/theme/`, e.g. `/` | `Content-Length: 9` | not executed | HttpServer.NotFoundCounterexample | HttpServer.NotFound |
| src/melange/dialogs.py:39-44 | a widget whose `categories` entry is falsy is filed under the miscellaneous category, and then `widget['categories']` is iterated anyway; that raises `KeyError` when the entry is missing and `TypeError` when it is `None`, aborting the dialog | one manifest without a `categories` entry | file such a widget under the miscellaneous category and carry on | not executed | Dialogs.MissingCategoriesCounterexample | Dialogs.AddWidgetDialog.constructor |
