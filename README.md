# Avatars and a chat room, modelled in Dafny

This project models three small pieces of the go_camp repository and proves
what they promise.

- **The avatar generator** (`avater_me/main.go`) turns a user's name into a
  500 × 500 picture. The picture shows the name's initials in white on a
  background chosen by the first initial. The model covers:
  - `defaultColor`, the colour table;
  - `cleanString`, which trims the name, reduces two words to their initials
    and upper-cases the result;
  - the image cache (`getImage`/`setImage`);
  - `createAvatar`: its cache check, its glyph-width and x-position
    arithmetic, and the store of the new image.
- **The chat room server** (`go_chat/chat/server.go`) keeps the connected
  users in a map keyed by user id, plus an append-only message log. Its
  `Listen` loop takes one event at a time:
  - add user: store the user and replay the log to them;
  - remove user;
  - new message: append it to the log and broadcast it;
  - error: log only;
  - done: stop.
- **A chat message** (`go_chat/chat/message.go`) and the one-line text it is
  shown as.

The Dafny modules follow the program's structure:

| file | module | contents |
|---|---|---|
| `avatar_text.dfy` | `AvatarText` | colour table, `strings.TrimSpace`, `strings.Split`, ASCII `strings.ToUpper`, `cleanString` |
| `avatar_layout.dfy` | `AvatarLayout` | Go's truncating division, the conversion of a 26.6 fixed-point glyph advance to pixels, the layout of two glyphs |
| `avatar.dfy` | `Avatar` | the image cache as a class with a `map` field, `createAvatar` as a method that fills two-element arrays in loops, and the function `Draw` that specifies it |
| `chat_message.dfy` | `ChatMessage` | `Message` and `String()` |
| `chat_server.dfy` | `ChatServer` | the room as a state machine (`Step`, `Run`) with its invariant, and the `Server` class whose methods perform each event in place |

Modelling choices:

- The font is an input. It is either absent (it could not be loaded) or a map
  from each character it has a glyph for to that glyph's advance.
- A rendered image is described, not rasterised. The description holds:
  - the canvas size;
  - the background and text colours;
  - each glyph's character and position.
- The two run-time panics of `createAvatar` are modelled as failure outcomes:
  - slicing the first byte of empty text;
  - storing a third glyph width into the two-element array.
- Each user's connection is abstracted as `written`, the messages written to
  that user so far.
- `Listen` consumes a finite sequence of events.

## Model

| member | source | states |
|---|---|---|
| `AvatarText.DefaultColor` | avater_me/main.go:63-108 | Each of "A".."T" gets its own colour from the table, in order. Each of "0".."9" gets the colour of the letter in the same position ("0" is Red like "A", "9" is Cyan like "J"). Any other string is Grey. |
| `AvatarText.InitialColorsDistinct` | avater_me/main.go:40-104 | The twenty colours the switch hands out are pairwise different, and none of them is Grey. |
| `AvatarText.DefaultColorGrey` | avater_me/main.go:105-106 | Grey is returned exactly for the strings that are not one letter "A".."T" or one digit. This covers "U".."Z", lower case, the empty string and longer strings. |
| `AvatarText.TrimSpace` | avater_me/main.go:111 | The result has no white space at either end. It is the contiguous piece of the input after the leading white space. Everything dropped on either side is white space in Go's sense. Input with no white space at its ends is returned unchanged. |
| `AvatarText.ToUpper` | avater_me/main.go:118 | Same length. Every character is upper-cased in place. |
| `AvatarText.UpperCharKeepsSpace` | avater_me/main.go:118 | Upper-casing a character keeps it white space exactly when it was, keeps it a space exactly when it was, and never yields a lower-case letter. |
| `AvatarText.ToUpperFixed` | avater_me/main.go:118 | Upper-casing text without lower-case letters changes nothing. |
| `AvatarText.Split` | avater_me/main.go:113 | Splitting on a separator gives one more piece than there are separators, and no piece holds a separator. |
| `AvatarText.JoinSplit` | avater_me/main.go:113 | Joining the pieces of a split with the separator gives the string back. |
| `AvatarText.SplitJoin` | avater_me/main.go:113 | Splitting the join of separator-free pieces gives the pieces back. |
| `AvatarText.SplitTwoWords` | avater_me/main.go:113-115 | A trimmed string that splits into two pieces is "first + space + second", with both words non-empty. So `[0:1]` never slices an empty word. |
| `AvatarText.Abbreviate` | avater_me/main.go:113-116 | No contract of its own: the two-word branch of `cleanString`. `SplitTwoWords` shows the two words are non-empty; `AbbreviateInitials` shows it keeps the first character of each word; `CleanStringWhole` uses that it keeps any other trimmed name whole. |
| `AvatarText.CleanString` | avater_me/main.go:110-119 | The cleaned text has no white space at either end and no lower-case letter. |
| `AvatarText.CleanStringInitials` | avater_me/main.go:113-118 | When the trimmed name has exactly one space, the result is the upper-cased first character of each word ("zhen li" gives "ZL"). If the second word starts with other white space, such as a tab, the final trim drops it and only the first initial is left. |
| `AvatarText.CleanStringWhole` | avater_me/main.go:113-118 | Otherwise the result is the whole trimmed name, upper-cased ("abc" gives "ABC", "a b c" gives "A B C"). |
| `AvatarText.CleanStringSpaces` | avater_me/main.go:110-119 | Cleaned text never holds exactly one space, so cleaning it again does not abbreviate it. |
| `AvatarText.CleanStringFixed` | avater_me/main.go:110-119 | Text with no edge white space, no lower-case letter and not exactly one space is its own cleaned form. |
| `AvatarText.CleanStringIdempotent` | avater_me/main.go:110-119 | Cleaning a cleaned string returns it unchanged. |
| `AvatarLayout.PixelWidth` | avater_me/main.go:202 | The advance in 26.6 fixed point is converted to whole pixels by dividing by 64 and truncating toward zero. This is stated as bounds for non-negative and for negative advances. |
| `AvatarLayout.Layout` | avater_me/main.go:209-212 | The second glyph's x is the first glyph's x plus the first width plus the 20-pixel spacer. |
| `AvatarLayout.LayoutCentred` | avater_me/main.go:209-212 | The left margin, the block of glyphs and gap, and the right margin fill the 500-pixel canvas exactly. When the block fits, the margins differ by at most one pixel and the odd pixel goes right. When it does not fit, truncation toward zero puts the odd pixel on the left. |
| `AvatarLayout.LayoutFirstX` | avater_me/main.go:211 | The first x is half the free space, truncated toward zero. For even free space it is exactly half. For odd free space it is half of the free space minus one when that space is positive, and half of it plus one when it is negative. |
| `Avatar.Measure` | avater_me/main.go:196-203 | No contract of its own: the outcome of the measuring loop from a given index. `MeasurePasses` and `MeasureFails` characterise it. |
| `Avatar.MeasurePasses` | avater_me/main.go:196-203 | The measuring loop gets through exactly when the text has at most two characters and the font has a glyph for each. |
| `Avatar.MeasureFails` | avater_me/main.go:196-203 | Otherwise it stops at the first character among the first three that has no glyph. If the first three all have glyphs, it panics at the third width. |
| `Avatar.Compose` | avater_me/main.go:175-220 | No contract of its own: the image drawn for one or two known glyphs. `DrawnImage` characterises it through `Draw`. |
| `Avatar.Draw` | avater_me/main.go:170-220 | No contract of its own: what `createAvatar` produces for text not in the cache. `DrawSucceeds` and `DrawnImage` characterise it, and `DrawText` is proved equal to it. |
| `Avatar.DrawSucceeds` | avater_me/main.go:170-203 | An image is drawn exactly when the font loaded and the cleaned text is one or two characters the font has glyphs for. |
| `Avatar.DrawnImage` | avater_me/main.go:175-220 | A drawn image has these properties: it is the full canvas; its background is `defaultColor` of the first character; its text is white; its glyphs are the text's characters, in order, on the baseline; and the first x is the left margin. With two glyphs, the second x is one spacer past the end of the first glyph, and the left and right margins differ by at most one pixel. With one glyph, the source still centres the glyph plus the 20-pixel spacer, so the space right of the glyph exceeds the space left of it by 20 or 21 pixels when the block fits (by 19 to 21 in general). |
| `Avatar.ImageCache.constructor` | avater_me/main.go:121 | The cache starts empty. |
| `Avatar.ImageCache.GetImage` | avater_me/main.go:123-135 | A lookup returns the image stored under the key, and nothing for a key that was never stored. |
| `Avatar.ImageCache.SetImage` | avater_me/main.go:137-139 | Storing puts the image under its key, so the next lookup returns it, and every other entry is left unchanged. |
| `Avatar.DrawText` | avater_me/main.go:175-224 | The array-and-loop drawing code produces exactly `Draw` of the cleaned text with the loaded font, including the empty-text panic, the missing-glyph exit and the third-glyph panic. |
| `Avatar.ImageCache.CreateAvatar` | avater_me/main.go:159-225 | On a cache hit for the cleaned text, it returns the cached image and the cache is unchanged. Otherwise it returns `Draw` of the cleaned text, and it stores the image under the cleaned text exactly when one was drawn. |
| `Avatar.SharedCacheEntry` | avater_me/main.go:159-168 | Two names that clean to the same text share one cache entry. Once the first call has drawn an image, the second call returns that same image whatever font it is given, and the cache holds it. |
| `ChatMessage.Message.String` | go_chat/chat/message.go:9-11 | The text has the length of the three fields plus 10. It starts with the user name, then " at ", then the timestamp right after it, then " says ", and ends with the body. |
| `ChatMessage.StringDeterminesMessage` | go_chat/chat/message.go:10 | Given the lengths of the user name and the timestamp, the text determines the message. |
| `ChatMessage.StringIsAmbiguous` | go_chat/chat/message.go:10 | Without those lengths, two different messages can read the same: a field may itself contain " says ". |
| `ChatServer.WriteEach` | go_chat/chat/server.go:57-61 | Writing a sequence of messages to one user appends exactly that sequence, in order, to that user's outbox. No other user's outbox changes. |
| `ChatServer.WriteAll` | go_chat/chat/server.go:68-73 | Broadcasting appends the message exactly once to the outbox of each addressed user. No other user's outbox changes. |
| `ChatServer.Step` | go_chat/chat/server.go:84-98 | No contract of its own: one pass of the event loop. `AddUserEffect`, `RemoveUserEffect`, `NewMessageEffect`, `ErrorAndDoneChangeNothing` and `StepConsistent` characterise it, and the `Handle*` methods are proved equal to it. |
| `ChatServer.Run` | go_chat/chat/server.go:81-100 | No contract of its own: the event loop over a sequence of events. `RunConsistent` and `RunStopsAtDone` characterise it, and `Listen` is proved equal to it. |
| `ChatServer.AddUserEffect` | go_chat/chat/server.go:84-88 | Add-user stores the user under its id, replacing any earlier entry with that id, and keeps the other entries. It appends the whole log, in order, to that user's outbox, and changes no other outbox and not the log. |
| `ChatServer.RemoveUserEffect` | go_chat/chat/server.go:89-91 | Remove-user deletes the entry under the user's id and keeps the rest. Removing an id that is not present changes nothing. |
| `ChatServer.NewMessageEffect` | go_chat/chat/server.go:92-94 | New-message appends the message at the end of the log. It writes the message once to each connected user, and to nobody who is not connected. The source writes once per map entry; this agrees with once per user on every room the event loop reaches, where each user is stored under its own id (`RunConsistent`). |
| `ChatServer.RemovedUserMissesMessages` | go_chat/chat/server.go:89-94 | After a user is removed, a new message is not written to them. |
| `ChatServer.ErrorAndDoneChangeNothing` | go_chat/chat/server.go:95-98 | An error event leaves the room as it was. Done ends the loop after one event, whatever follows. |
| `ChatServer.StepConsistent` | go_chat/chat/server.go:81-99 | Every event preserves the room's invariant: every user is stored under its own id, and every connected user's outbox ends with the whole log, in order. |
| `ChatServer.RunConsistent` | go_chat/chat/server.go:81-100 | The whole event loop preserves that invariant. |
| `ChatServer.RunStopsAtDone` | go_chat/chat/server.go:97-98 | Nothing after the first Done is taken or has any effect. |
| `ChatServer.Server.constructor` | go_chat/chat/server.go:24-41 | A new server has no connected users, an empty log and nothing written, and satisfies the invariant. |
| `ChatServer.Server.SendPastMessages` | go_chat/chat/server.go:57-62 | The loop writes every logged message to the user, once each, in log order. It changes nothing else. |
| `ChatServer.Server.SendAll` | go_chat/chat/server.go:68-73 | The loop over the connected users writes the message exactly once to each of them and to nobody else. |
| `ChatServer.Server.HandleAddUser` | go_chat/chat/server.go:84-88 | The add-user case changes the server's state exactly as `Step` does, and keeps the invariant. |
| `ChatServer.Server.HandleRemoveUser` | go_chat/chat/server.go:89-91 | The remove-user case changes the server's state exactly as `Step` does, and keeps the invariant. |
| `ChatServer.Server.HandleNewMessage` | go_chat/chat/server.go:92-94 | The new-message case changes the server's state exactly as `Step` does, and keeps the invariant. |
| `ChatServer.Server.Listen` | go_chat/chat/server.go:75-102 | The loop's final state is `Run` of the events, it reports how many events it took (up to and including the first Done), and it keeps the invariant. |

## Left out

- `dining_philosopher/main.go` is not part of this model. The code there only prints and sleeps for random durations, and its point is concurrency.
- Font loading (`getFont`) is not modelled; it is file I/O and font parsing. The loaded font is an input, either absent or a map from characters to glyph advances (`face.GlyphAdvance`).
- Rasterising is not modelled: `draw.Draw`, the freetype context and `DrawString`. An image records what is drawn and where. An error from `DrawString` is not modelled.
- Avatar.DrawText: when a glyph is missing, the source returns `nil, err` with `err` still nil. The model reports this as the failure `MissingGlyph` instead. In both cases no image is returned and nothing is cached.
- `ToDisk`, `ToHTTP`, PNG encoding, HTTP headers, `os.Exit` and `main` are not modelled; they are I/O.
- `imageCache` is a `sync.Map`. It is modelled as a plain map field, so concurrent access is not modelled.
- The type-assertion failure in `getImage` is not modelled: only `*image.RGBA` values are ever stored, so it cannot occur.
- The conversion `int(float64(width)/64)` is modelled as integer division by 64, truncated toward zero. This is exact: the advance is a 32-bit integer, so its float64 value divided by 64 is exact.
- The reset of the second width when the widths array has length one is not modelled. The array always has length two, so that branch never runs.
- Text is a sequence of characters. The source slices bytes (`[0:1]`, `range` indices) and upper-cases with Unicode tables. The model agrees with the source on ASCII text only: `ToUpper` changes only `a`..`z`.
- The channel plumbing of the chat server is not modelled: the `AddUser`, `RemoveUser`, `Done` and `Err` sends, and the `select` itself. Each event is one method call, and `Listen` takes a finite sequence of events rather than looping forever.
- `handleChat`, `handleGetAllMessages`, the websocket upgrade, JSON and the `http.HandleFunc` registrations are not modelled, and neither is logging.
- `User` and `User.Write` are not part of this model. A user is an object with an id, and writing a message to a user appends it to that user's outbox in `written`.
- ChatServer.Server.SendAll requires that every user is stored under its own id. Only then does ranging over the map write each user once. This is the invariant `Listen` keeps, and SendAll's only caller, the new-message case, satisfies it.
- Source defects that stop the code from compiling are modelled as the evident intent:
  - the struct literal in `NewServer` omits the `removeUser` channel;
  - `requestWriter` is undefined in `handleChat`;
  - `ProcessNewIncomingMessage` is not shown;
  - `message.go` declares `package main` in the `chat` directory.
