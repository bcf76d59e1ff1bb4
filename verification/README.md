# Portfolio site: contact validation, relay and navigation state

This project models the small layer of real logic in a personal portfolio
website. The rest of the site is DOM animation. Two programs are involved:

- `app.js` runs in the visitor's browser. The model covers four parts of it:
  the contact form's validation (`validateForm` and `isValidEmail`), the
  scroll handler that sets the navbar's `scrolled` class and the nav link's
  `active` class, the resize handler that closes the mobile menu, and the
  interval that types the hero title one character per tick.
- `server.js` is the `/api/contact` relay. The model covers its validation
  with early 400 answers and the parts of the two e-mails computed from the
  request. It also covers the two ordered `sendMail` calls, whose failure
  gives one generic 500.

Modules:

- `JsText` (js_text.dfy) holds the JavaScript string semantics both programs
  rely on. `IsWs` is the ECMAScript whitespace and line-terminator set that
  both `\s` and `trim` use. It also defines `Trim`, truthiness of a field
  (`!x` holds for `null` and `""`) and `join`. `ContactData` is the
  submitted record.
- `EmailPattern` (email_pattern.dfy) models `/^[^\s@]+@[^\s@]+\.[^\s@]+$/`.
  `IsValidEmail` reads the pattern as "splits into run '@' run '.' run".
  `EmailShape` is the structural reading, and the two are proved equal.
- `ContactForm` (contact_form.dfy) models the browser's four rules, its
  ordered error list and the joined text it shows.
- `Navigation` (navigation.dfy) models the section scan as a loop. The
  navbar and the nav links are objects whose class flags the handlers update.
- `TitleTyper` (title_typer.dfy) models the typing interval as a class with
  a counter.
- `ContactRelay` (contact_relay.dfy) models the relay. The mail provider is a
  class that records each message handed to `sendMail`. Whether each step
  throws is an input.
- `ClientServer` (client_server.dfy) relates the two validations.

Three points of the code's behaviour that are easy to misread:

- The browser's length rules apply after `trim()`.
- The relay rejects empty fields as well as absent ones.
- The browser form never posts to the relay: its submit handler calls a local
  simulation. The relation between the two validations is therefore stated as
  a lemma and not as a call chain.

## Model

| member | source | states |
|---|---|---|
| `JsText.Trim` | app.js:270 | the result is a slice of the input with only whitespace around it; it neither starts nor ends with whitespace; it is empty exactly when the input is all whitespace |
| `JsText.TrimSurrounded` | app.js:270 | trimming removes exactly the whitespace around a string that neither starts nor ends with whitespace, however much there is on each side |
| `JsText.TrimIdempotent` | app.js:270 | trimming an already trimmed string changes nothing |
| `JsText.Join` | app.js:287 | joining no parts gives "", one part stands alone, and otherwise the text starts with the first part and ends with the last |
| `JsText.JoinSnoc` | app.js:287 | joining one more part appends the separator and then that part, so the text builds up left to right in list order |
| `EmailPattern.EmailPatternIffShape` | app.js:294-297 | the pattern accepts a string exactly when it has no whitespace, exactly one '@', a non-empty part before it, and a '.' after it that is neither the first nor the last character of the domain |
| `EmailPattern.IsValidEmail` | app.js:294-297 | the anchored pattern matches exactly when the string splits into run '@' run '.' run (runs non-empty, without whitespace or '@'); any match is at least five characters long and neither starts nor ends with whitespace or '@' |
| `EmailPattern.EmailExamples` | app.js:295 | `a@b.c` is accepted; `a@b`, `a.com` and `a@.c` are rejected |
| `ContactForm.FormErrors` | app.js:268-285 | each rule's message is present exactly when that rule fails (missing or empty field, or trimmed length below 2/5/10, or a bad address); messages only come from the four, in the order name, email, subject, message, without repetition; the list is empty exactly when all rules hold |
| `ContactForm.ValidateForm` | app.js:267-292 | accepts exactly when all four rules hold; on rejection the error list is non-empty and the shown text is the list joined by ". " |
| `ContactForm.MissingFieldRejected` | app.js:270-284 | a missing or empty field always gets the form rejected |
| `ContactForm.WhitespaceNameRejected` | app.js:270 | a whitespace-only name fails the name rule whatever its length |
| `ContactForm.TrimBeforeLength` | app.js:270-272 | names "A" and "  A  " fail the name rule; "Al" passes it |
| `ContactForm.ThreeFailuresShownInOrder` | app.js:286-288 | when name, subject and message fail, the shown text is their three messages in that order separated by ". " |
| `ContactForm.SingleFailureShownAlone` | app.js:282-288 | when only the message rule fails, the shown text is that message alone |
| `Navigation.LastCovering` | app.js:74-80 | the index is that of a section whose window `[offsetTop-120, offsetTop-120+offsetHeight)` holds scrollY and no later section's window does, or -1 when no window holds it |
| `Navigation.ActiveSectionAppend` | app.js:74-80 | scanning one more section makes it the active one if it covers scrollY and otherwise leaves the active section unchanged (the last match wins) |
| `Navigation.ScanSections` | app.js:71-80 | the loop leaves `currentSection` equal to the id of the last covering section, or "" if none |
| `Navigation.NavBar.OnScroll` | app.js:62-88 | the navbar is `scrolled` exactly when scrollY > 100; afterwards every link is `active` exactly when its href is "#" plus the active section's id |
| `Navigation.NavBar.OnResize` | app.js:375-384 | a width above 768 clears `active` on the menu and the hamburger; otherwise both keep their state |
| `TitleTyper.Typer.constructor` | app.js:167-171 | the title starts empty with the counter at 0 and the interval registered |
| `TitleTyper.Typer.Tick` | app.js:171-176 | after k ticks the title shows the first min(k, 13) characters of "Shekhar Singh", so it only grows by extension; the counter never passes the text length; the interval is cleared on the first tick after the text is complete |
| `TitleTyper.Typer.RunToCompletion` | app.js:171-194 | the interval stops after exactly length + 1 ticks with the whole title shown |
| `ContactRelay.CheckRequest` | server.js:74-89 | a request passes exactly when all four fields are present and the address has the pattern's structural shape; a missing or empty field gives 400 "All fields are required" before the address is looked at; otherwise a bad address gives 400 "Please provide a valid email address" |
| `ContactRelay.NotificationSubject` | server.js:97 | the subject line is "Portfolio Contact: " followed by the submitted subject unchanged |
| `ContactRelay.NewlinesToBreaks` | server.js:111 | the rewritten message holds no line feed, is 3 characters longer per line feed, and equals the message when it had none |
| `ContactRelay.NewlinesToBreaksAppend` | server.js:111 | the rewrite distributes over concatenation |
| `ContactRelay.NewlinesToBreaksChar` | server.js:111 | a line feed becomes `<br>` and every other character stays itself |
| `ContactRelay.Summary` | server.js:145 | a message of at most 100 characters is quoted whole with no ellipsis; a longer one gives its first 100 characters followed by "..." |
| `ContactRelay.SenderAddress` | server.js:95 | the sender is the configured account when it is set and non-empty, the owner's address otherwise, and never empty |
| `ContactRelay.NotificationMail` | server.js:94-121 | the notification goes to the owner from the sender address, under "Portfolio Contact: " followed by the submitted subject; it quotes the name, address and subject unchanged, and the message rewritten by `NewlinesToBreaks` (each line feed becomes `<br>`, every other character stays), so it holds no line feed and is the message itself when it had none |
| `ContactRelay.AutoReplyMail` | server.js:124-173 | the auto-reply goes to the submitted address from the sender address under the fixed thank-you subject; it quotes the name and subject, and the message whole when it has at most 100 characters, otherwise its first 100 characters followed by "..." |
| `ContactRelay.MailProvider.SendMail` | server.js:176-177 | each call records the message handed over and reports whether it threw |
| `ContactRelay.HandleContact` | server.js:70-191 | a rejected request gets its 400 and nothing is sent; a valid one sends the owner notification and then, only if that succeeded, the auto-reply to the submitted address; the answer is 200 with the success text when every step succeeded and the one generic 500 otherwise |
| `ClientServer.ClientAcceptanceImpliesServerAcceptance` | server.js:75-89 | every submission the browser form accepts passes the relay's validation |
| `ClientServer.ServerAcceptsWhatClientRejects` | server.js:75-89 | name "A", subject "Hi" and message "Short" pass the relay but the browser rejects them with three messages |
| `ClientServer.JaneDoeAccepted` | app.js:267-292 | the sample submission (Jane Doe, jane@example.com, "Hello there", "This is a test message.") passes both validations |
| `ClientServer.RelayAccepted` | server.js:176-182 | with `EMAIL_USER` unset, a submission the browser accepts, relayed while the provider works, gets the 200 success answer after exactly two mails: first the notification and then the auto-reply that the two builders make for that submission (to the owner and to the submitted address) |

## Left out

- Visual effects are not modelled: particles, parallax, skill bars, entrance animations, button ripples, project-card hover, the loader fade, the stats counter, `Utils.fadeIn` and `Utils.slideIn`. They are browser styling and floating-point stepping with no logic to state.
- `Utils.debounce` and `Utils.throttle`, the button-restoring and toast-expiry timeouts, and the service worker registration are not modelled. They are timer and browser-API glue.
- `handleContactForm` and `simulateEmailSend` are not modelled (randomness, `localStorage`, a simulated delay). `showMessage` is represented only by the text a rejection shows.
- The hamburger and nav-link click handlers and `smoothScrollTo` are not modelled. They are outside the scroll and resize handlers.
- Elements are assumed present: the `?.` guards and the early return in `initTypingEffect` when the title element is missing are not modelled.
- The 100 ms period of the typing interval is not modelled; ticks are counted instead. The cursor-blink styling applied when the interval is cleared is also left out.
- `scrollY`, `offsetTop`, `offsetHeight` and `innerWidth` are integers. A browser can report a fractional `scrollY`.
- Lengths (`trim().length`, `substring(0, 100)`, `length > 100`) count Unicode scalar values. JavaScript counts UTF-16 code units, so the two differ for characters outside the Basic Multilingual Plane.
- Request-body fields are either missing or strings. JSON numbers, arrays or objects in the body are not modelled.
- The Express middleware is not modelled: helmet, CORS, body parsing, static files, the 404 and error handlers, `listen`.
- The rate limiter (5 requests per 15 minutes per address) is not modelled. Its implementation lives in `express-rate-limit`, which is not part of this model.
- The mail library is not modelled. Creating the transporter and each `sendMail` are steps that may throw, and which ones throw is an input. server.js:51 calls `nodemailer.createTransporter`, while the library's documented factory is `createTransport`. Because the library is not part of this model, that call is treated as one that may or may not throw.
- Only the request-dependent parts of the two e-mails are modelled. The static HTML around them, `new Date().toLocaleString()` and `console.error` logging are left out. The interpolated values are not HTML-escaped by the source, and the model keeps them raw.
- The `/health` and `/api/analytics` endpoints are not modelled. They only report a timestamp or log and return a constant.
