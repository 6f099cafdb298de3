# Portfolio site: carousel, intro loader and contact form

A Dafny model of the three pieces of behaviour in a single-page portfolio
site that are more than markup:

- **Project image carousel** (`components/Projects.tsx`), module `Carousel`.
  A table from project id to the current image index. The arrows step one
  entry forward or back with wrap-around, a dot sets it directly, and a
  missing entry reads as image 0. Each update copies the table with one key
  replaced, so the model is pure functions over `map<string, int>`. The
  JavaScript `%` truncates toward zero and can go negative, so it is written
  out as `JsRem`. The range invariant is therefore a real property: it is
  proved, not built into the types.
- **Intro loader** (`components/PageLoader.tsx`), module `PageLoader`. A
  class `Loader` holds the phase (`Waiting`, `Chiming`, `Dot`, `Done`), the
  one-shot `hasTriggered` latch, and one flag per scheduled timer. Each timer
  becomes an event method (`FireFallback`, `FireDot`, `FireDone`). The
  crawler test on the user agent is a pure function. Three visit methods
  replay whole visits: clicked, silent and crawler.
- **Contact form** (`components/Contact.tsx`), module `Contact`. The form
  is a datatype. `handleChange` is a pure one-field update. The
  `handleSubmit` flow lives in a class `ContactForm`. The flow is split at
  its `await`: `BeginSubmit` shows `Sending` and posts the form.
  `CompleteSubmit` takes the reply as an `Outcome` (success flag, failure
  flag, or an exception) and schedules one reset timer, fired by
  `FireReset`.

`Wrappers` holds the `Option` type, used where the source reads `undefined`.

## Model

| member | source | states |
|---|---|---|
| Carousel.JsRem | components/Projects.tsx:83-90 | JavaScript remainder: in `[0, b)` for a non-negative dividend, in `(-b, 0]` for a negative one, and congruent to the dividend modulo `b` |
| Carousel.CurrentIndex | components/Projects.tsx:144 | a stored entry is read as is; a missing entry reads as 0 |
| Carousel.NextImage | components/Projects.tsx:80-85 | only the entry for `projectId` changes; its new value is the old index plus one, taken modulo the image count |
| Carousel.PrevImage | components/Projects.tsx:87-92 | only the entry for `projectId` changes; its new value is the old index minus one plus the count, taken modulo the count |
| Carousel.SelectImage | components/Projects.tsx:202-205 | a dot click sets the entry to exactly `idx`, keeps every other entry, and leaves the index in range |
| Carousel.DisplayedCounter | components/Projects.tsx:229 | the counter `index + 1` lies in `[1, images.length]` when the index is in range |
| Carousel.ShownImage | components/Projects.tsx:170 | the shown image exists exactly when the index is in range, and it is the image at that index |
| Carousel.ExactlyOneActiveDot | components/Projects.tsx:206-210 | with an in-range index exactly one dot is highlighted |
| Carousel.NextStaysInRange | components/Projects.tsx:83 | next keeps an index in `[0, total)` |
| Carousel.PrevStaysInRange | components/Projects.tsx:90 | prev keeps an index in `[0, total)` |
| Carousel.NextSteps | components/Projects.tsx:83 | next moves from `i` to `i + 1`, and from the last image to 0 |
| Carousel.PrevSteps | components/Projects.tsx:90 | prev moves from `i` to `i - 1`, and from 0 to the last image |
| Carousel.FromAbsentEntry | components/Projects.tsx:83-90 | for a project never clicked, next gives `1 % total` and prev gives `total - 1` |
| Carousel.PrevAfterNext | components/Projects.tsx:80-92 | prev after next restores the index; it restores the whole table when the entry existed |
| Carousel.NextAfterPrev | components/Projects.tsx:80-92 | next after prev restores the index; it restores the whole table when the entry existed |
| Carousel.NextTimes | components/Projects.tsx:189 | repeated next clicks add at most the clicked project's key and leave every other project's entry alone |
| Carousel.NextTimesIndex | components/Projects.tsx:83 | after `n` next clicks the index is the start index plus `n`, taken modulo `total` |
| Carousel.FullCycle | components/Projects.tsx:83 | `total` next clicks return to the starting image |
| Carousel.Apply | components/Projects.tsx:178-205 | a click on a rendered arrow or dot adds at most its own project's key, changes only that entry, sets it to exactly `idx` for a dot, and keeps it in range |
| Carousel.ApplyKeepsValid | components/Projects.tsx:178-205 | controls exist only for projects with more than one image; every click on them keeps all stored indices in range |
| Carousel.ValidShowsImage | components/Projects.tsx:143-170 | under the table invariant every project shows one of its own images |
| PageLoader.Rank | components/PageLoader.tsx:69 | the four phases in the order the loader visits them, `Waiting` first and `Done` last |
| PageLoader.LowerAscii | components/PageLoader.tsx:95 | folds `A`-`Z` to lower case and keeps every other character; the pattern is all lower-case ASCII and, without the `u` flag, `i` never folds a non-ASCII character onto an ASCII one, so this folding decides the test exactly |
| PageLoader.Lower | components/PageLoader.tsx:95 | case folding of a whole user-agent string, character by character |
| PageLoader.Contains | components/PageLoader.tsx:95 | the search reports true exactly when the word occurs at some position |
| PageLoader.AnyOccurs | components/PageLoader.tsx:95 | true exactly when one of the alternatives occurs |
| PageLoader.IsBot | components/PageLoader.tsx:95 | a user agent is a crawler exactly when, ignoring case, it contains one of the seven words |
| PageLoader.View | components/PageLoader.tsx:111-205 | the overlay shows until `Done`; the prompt and pointer cursor show only while `Waiting`; the dot shows only in `Dot`; prompt and dot never show together |
| PageLoader.Loader.constructor | components/PageLoader.tsx:72-75 | starts in `Waiting`, latch clear, no timer scheduled, no chime played |
| PageLoader.Loader.Mount | components/PageLoader.tsx:93-107 | a crawler goes to `Done` at once with no fallback timer; anyone else stays `Waiting` with the 4 s fallback scheduled |
| PageLoader.Loader.TriggerEnter | components/PageLoader.tsx:77-90 | the first call sets the latch, enters `Chiming`, plays the chime only for a user click and schedules the dot and done timers; any later call changes nothing |
| PageLoader.Loader.Click | components/PageLoader.tsx:117-119 | a click on the overlay triggers with a chime the first time and does nothing afterwards |
| PageLoader.Loader.FireFallback | components/PageLoader.tsx:102-104 | the fallback triggers silently, and does nothing if a click came first |
| PageLoader.Loader.FireDot | components/PageLoader.tsx:88 | the 900 ms timer moves `Chiming` to `Dot` |
| PageLoader.Loader.FireDone | components/PageLoader.tsx:89 | the 1600 ms timer moves `Dot` to `Done`; `Done` is never left afterwards |
| PageLoader.ClickedVisit | components/PageLoader.tsx:77-119 | a human who clicks, even twice, sees `Waiting, Chiming, Dot, Done` and hears one chime |
| PageLoader.SilentVisit | components/PageLoader.tsx:77-104 | a human who never clicks sees the same four phases and hears no chime |
| PageLoader.CrawlerVisit | components/PageLoader.tsx:93-99 | a crawler goes from `Waiting` straight to `Done` and no timer is left |
| Contact.HandleChange | components/Contact.tsx:49-54 | the named field takes the new value and the other two keep theirs |
| Contact.ChangeLastWins | components/Contact.tsx:49-54 | two edits of one field leave only the last value |
| Contact.ChangesCommute | components/Contact.tsx:49-54 | edits to different fields can happen in either order |
| Contact.ChangeToSameIsNoop | components/Contact.tsx:49-54 | writing back a field's own value changes nothing |
| Contact.Subject | components/Contact.tsx:29 | the subject is `New message from `, then the name, then ` - Portfolio Contact` |
| Contact.SenderOf | components/Contact.tsx:29 | a name read back from a subject line rebuilds exactly that subject |
| Contact.SenderOfSubject | components/Contact.tsx:29 | the name can always be read back from the subject |
| Contact.SubjectInjective | components/Contact.tsx:29 | different names give different subjects |
| Contact.BuildRequest | components/Contact.tsx:24-30 | the posted body carries the access key and the three fields unchanged, and its subject names the sender |
| Contact.SubmitButton | components/Contact.tsx:165-175 | the button is disabled exactly while `Sending` |
| Contact.LabelsDistinct | components/Contact.tsx:175 | the four statuses have four different button captions |
| Contact.Settle | components/Contact.tsx:33-45 | only a reply with `success` true gives `Success` and clears the form; a failed reply or an exception gives `Error` and keeps the form |
| Contact.ContactForm.constructor | components/Contact.tsx:7-12 | starts `Idle` with three empty fields |
| Contact.ContactForm.Change | components/Contact.tsx:49-54 | the form becomes `HandleChange` of the old form; nothing else changes |
| Contact.ContactForm.BeginSubmit | components/Contact.tsx:14-31 | the status is `Sending` before the request; the request is built from the form as it was; the form is untouched |
| Contact.ContactForm.CompleteSubmit | components/Contact.tsx:33-46 | status and form become what `Settle` gives; exactly one reset timer is added on every path |
| Contact.ContactForm.FireReset | components/Contact.tsx:38-45 | the reset shows `Idle` and leaves the form alone |
| Contact.SubmitOnce | components/Contact.tsx:14-54 | filling the form and submitting once shows `Idle, Sending, Success or Error, Idle`; the form is left empty only after a success |
| Contact.ResubmitBeforeReset | components/Contact.tsx:38-45 | an earlier reset timer can show `Idle` while a later request is still awaited |

## Left out

- `playChime` (Web Audio with floating-point frequencies and gains) is a counter, `Loader.chimes`, in the model.
- The `fetch` call and JSON parsing are an `Outcome` value: a reply with a `success` flag, or an exception. The JSON `success` value is taken to be a boolean, not any truthy value.
- The access key is a parameter; it comes from the environment.
- Real time is not modelled. Timers are events that can fire only once scheduled. `FireDone` requires that the dot timer has fired, because both timers are scheduled together with delays of 900 ms and 1600 ms. The contact form's reset timers can fire in any interleaving with later submits.
- The unmount cleanup that cancels the fallback timer is not modelled. Nor is a state update after unmount.
- `Contact.HandleChange`: handles only the three input names the form renders (`name`, `email`, `message`). An event from any other name would add a new key in the source.
- `Contact.SubmitButton`: the source text shows the success caption as mis-decoded bytes. The model uses the intended check-mark character, U+2713.
- `Carousel.NextImage`, `Carousel.PrevImage`: require at least one image. In the source a count of 0 would give `NaN`, but the arrows exist only for more than one image.
- Clipboard writes and `alert` in the contact panel are left out. They are browser side effects.
- The particle canvas (components/AtmosphereCanvas.tsx) is left out. It is floating-point animation drawn to a canvas.
- The typing terminal (components/Terminal.tsx) is left out. It hands the whole sequence to an external typewriter library, so the scripted sequencer has no code of its own here to model.
- Navbar and back-to-top visibility are left out. Each is one scroll-offset comparison inside a DOM listener.
- Hero, About, Skills, Experience, the page layout and the metadata are left out. They are static content and animation settings.
- React rendering, re-render scheduling and closure capture are left out.
