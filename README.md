# Portfolio page behaviour, modelled in Dafny

A model of the logic inside the portfolio site's `script.js`, with proofs about it:

- **The hero's interactive dot background.** A field of particles is sized to the hero.
  - Each frame moves and bounces every particle.
  - It links nearby particles and links particles near the pointer.
  - The class `ParticleCanvas.ParticleField` holds the state: width, height, the particle array and the pointer.
  - Its methods are the handlers: the constructor, `Resize` (with `InitParticles`), `MouseMove`, `MouseLeave` and `Step` (one `animate` frame).
  - `Step` returns the lines it would stroke as `Links.Line` records.
  - The modules `Particles` and `Links` hold the specification functions. They describe one particle's spawn and move, and every line a frame draws. They also hold the lemmas about them.
- **Active navigation link** (`Navigation.UpdateActiveNavLink`). Given the scroll position, the sections and the nav links, it computes which link ends up highlighted.
- **Mobile menu** (`Navigation.MobileMenu`). The hamburger, nav-link and Escape handlers act on the menu's `active` classes and the body's `overflow` style.
- **Blog section** (`Blog`): the feed-or-fallback decision, the tags of a card, and the cleaned description excerpt.
- **Counters** (`Counters`): the stat count-up animation and the title's typing effect. Each timer tick is one loop iteration.

These become parameters:
- `Math.random()` is a sequence of draws in `[0, 1)`.
- `Math.sqrt` is a function `sqrt: real -> real`. Where a result depends on it, the lemmas assume `Links.IsSqrt(sqrt)`, an exact square root.
- `getBoundingClientRect()` is the `left`/`top` arguments of `MouseMove`.
- The DOM reads (`offsetWidth`, `offsetTop`, `getAttribute('href')`, `querySelector(href)`) are arguments.

Other modelling choices:
- Coordinates and distances are exact `real`s. Range tests compare squared distances (`DistSq < 100*100`, `< 150*150`), just as `dist < 100` does for an exact root.
- Each `Line` record carries the index of its particle, and for a link its partner's index. This is what lets "each pair at most once per frame" be stated.

The particle frame keeps the source's ordering. Particle `i` has already moved when it is compared with particles `j > i`, and those have not moved yet. The particle array is a `seq` field, and `Step` replaces one element at a time (`particles[i := p]`), as the source mutates each particle object in turn. Its contract ties the new array to `Particles.MoveAll` of the old one, and its lines to `Links.FrameLines` of the old array. The lemmas about `FrameLines` then give the properties of a frame:
- every line drawn is expected (soundness);
- a link is drawn if and only if the pair is close, and a pointer line if and only if the pointer is close;
- the lines are in drawing order, so nothing is drawn twice;
- the opacity ranges hold.

Three behaviours of the code worth knowing:
- **Pointer after leaving the hero.** `mousemove` is registered on `window` (script.js:467). A move anywhere in the window, even outside the hero, sets the pointer again after `mouseleave` has cleared it. `MouseMove` has no hero-bounds check.
- **Escape and the scroll lock.** Escape closes the menu but leaves `document.body.style.overflow` as it is (script.js:369-375). Closing an open menu with Escape therefore leaves the page scroll-locked (`Navigation.EscapeKeepsScrollLock`).
- **Velocity range.** The initial velocity components `(Math.random() - 0.5) * 1` (script.js:488-489) lie in the half-open range `[-0.5, 0.5)`, because `Math.random()` never returns 1.

## Model

| member | source | states |
|---|---|---|
| Particles.Spawn | script.js:485-491 | one particle from five draws: x = rx*width, y = ry*height, vx = (rvx-0.5)*1, vy = (rvy-0.5)*1, size = rsize*2+1 (a definition; its ranges are stated by SpawnInRange) |
| Particles.SpawnAt | script.js:484-491 | particle k of a rebuild takes draws 5k..5k+4 in the order x, y, vx, vy, size (a definition; its ranges are stated by SpawnAtInRange) |
| Particles.Count | script.js:483 | the particle count n satisfies n*10000 <= width*height < (n+1)*10000, i.e. it is floor(width*height/10000) |
| Particles.SpawnInRange | script.js:485-491 | a particle built from five draws in [0,1) has x in [0,width), y in [0,height), vx and vy in [-0.5,0.5) and size in [1,3) |
| Particles.SpawnAtInRange | script.js:484-491 | particle k of a rebuilt field, built from draws 5k..5k+4, lies in those ranges |
| Particles.Moved | script.js:500-505 | the position advances by exactly the velocity and is never clamped; vx flips sign if and only if the new x is below 0 or above width, vy likewise against height; size is unchanged; the in-field invariant is preserved |
| Particles.FreshIsInField | script.js:485-491 | a freshly spawned particle satisfies the in-field invariant kept between frames |
| Particles.InFieldNearBox | script.js:500-505 | a particle satisfying the invariant is never more than 0.5 pixel outside [0,width] x [0,height] |
| Particles.OvershootHappens | script.js:500-505 | a particle at x = 0.1 moving at vx = -0.4 ends a frame outside the box, at x = -0.3, with vx flipped to 0.4: positions are not clamped |
| Particles.MoveAll | script.js:499-505 | one frame keeps the particle count and moves every particle as Moved does |
| Links.DistSq | script.js:516-518 | the squared distance is never negative |
| Links.LinkOpacity | script.js:522 | for a distance in [0,100) the link opacity lies in (0,0.1], and it is 0.1 exactly at distance 0 |
| Links.PointerOpacity | script.js:538 | for a distance in [0,150) the pointer-line opacity lies in (0,0.2], and it is 0.2 exactly at distance 0 |
| Links.PairLines | script.js:514-528 | the inner `for` loop: for j from i+1 up, a link from the moved particle i to particle j when their squared distance is below 100*100 (a definition; its properties are PairLinesAreSound, PairLinesAreComplete and PairLinesIncreasing) |
| Links.PointerLines | script.js:531-544 | the pointer step: no line while the pointer is null, else one line to it when the squared distance is below 150*150 (a definition; its properties are PointerLinesFacts) |
| Links.ParticleLines | script.js:499-544 | one `forEach` iteration: the links of the moved particle i, then its pointer line (a definition; its properties are ParticleLinesSound, ParticleLinesOrdered and ParticleLinesHasLinks) |
| Links.FrameLines | script.js:499-545 | one frame: the lines of all iterations in array order, over the array before the frame (a definition; its properties are FrameLinesSound, FrameLinesComplete, FrameLinesOnce and FrameLinesOpacity) |
| Links.PairLinesAreSound | script.js:514-527 | every line of the inner loop links the moved particle i to a later, not yet moved particle within 100 pixels, with that particle's endpoint and the link opacity |
| Links.PairLinesAreComplete | script.js:514-527 | every later particle within 100 pixels gets its link from the inner loop |
| Links.PairLinesIncreasing | script.js:514-527 | the inner loop's links come in strictly increasing partner order |
| Links.PairLinesFacts | script.js:514-527 | the inner loop's lines are sound, complete and in partner order |
| Links.PairLinesSameTail | script.js:514-515 | the inner loop only reads the particles after i, which have not moved yet this frame |
| Links.PointerLinesFacts | script.js:531-544 | at most one pointer line; there is one if and only if the pointer is set and within 150 pixels of the moved particle, and it is the expected line |
| Links.ParticleLinesSound | script.js:499-544 | each line of iteration i belongs to particle i and is one the frame is meant to draw |
| Links.ParticleLinesOrdered | script.js:514-544 | iteration i draws its links in partner order, then its pointer line |
| Links.ParticleLinesIndex | script.js:499-544 | every line of iteration i carries index i |
| Links.ParticleLinesHasLinks | script.js:514-527 | iteration i draws the link to every later particle within 100 pixels |
| Links.ParticleLinesHasPointerLink | script.js:531-544 | iteration i draws the pointer line whenever the pointer is within 150 pixels |
| Links.UpToStep | script.js:499 | one more `forEach` iteration appends exactly its own lines |
| Links.FrameLinesSound | script.js:499-545 | every line a frame draws is an expected link (close pair i < j, i moved, j not) or an expected pointer line |
| Links.FrameLinesComplete | script.js:514-544 | for each pair i < j, the link is drawn if and only if the moved i is within 100 pixels of the unmoved j; for each particle, the pointer line is drawn if and only if the pointer is set and within 150 pixels |
| Links.FrameLinesOnce | script.js:499-545 | the frame's lines are in drawing order, and two lines with the same particle, kind and partner are the same line: no pair is linked twice |
| Links.LinkOpacityBelowDistance | script.js:518-522 | with an exact square root, a squared distance below 100*100 gives a link opacity in (0,0.1] |
| Links.PointerOpacityInRadius | script.js:534-538 | with an exact square root, a squared distance below 150*150 gives a pointer opacity in (0,0.2] |
| Links.ExpectedOpacity | script.js:518-538 | an expected line's opacity is in (0,0.1] for a link and (0,0.2] for a pointer line |
| Links.FrameLinesOpacity | script.js:518-538 | with an exact square root, every link of a frame has opacity in (0,0.1] and every pointer line in (0,0.2] |
| Links.NoPointerNoPointerLines | script.js:531 | while the pointer is null, a frame draws only particle links |
| Links.PointerLineAtHalfRadius | script.js:538 | a particle 75 pixels from the pointer gets a pointer line of opacity 0.1 |
| ParticleCanvas.ParticleField.constructor | script.js:461-465 | set-up runs `resize()` once: the field has Count(w,h) particles, particle k spawned from draws 5k..5k+4, and no pointer |
| ParticleCanvas.ParticleField.Resize | script.js:474-478 | the size is replaced and the whole array is rebuilt with exactly Count(w,h) new particles, each freshly spawned in range; the invariant holds |
| ParticleCanvas.ParticleField.InitParticles | script.js:480-493 | the push loop builds exactly Count(width,height) particles, particle k from draws 5k..5k+4, each with its position in the hero, velocity components in [-0.5,0.5) and size in [1,3), so the between-frames invariant holds |
| ParticleCanvas.ParticleField.MouseMove | script.js:467-472 | the pointer becomes the client position relative to the canvas's top-left corner, with no bounds check |
| ParticleCanvas.ParticleField.MouseLeave | script.js:555-558 | the pointer is cleared |
| ParticleCanvas.ParticleField.Step | script.js:495-548 | the frame moves every particle, one element at a time, as MoveAll does, keeps the invariant, and returns exactly FrameLines of the array before the frame |
| ParticleCanvas.ParticleField.Advance | script.js:500-505 | the moved and bounced particle is Moved of the old one |
| ParticleCanvas.ParticleField.LinksToLater | script.js:514-528 | the inner loop's links are PairLines over the current array from partner i+1 |
| ParticleCanvas.ParticleField.LinkToPointer | script.js:531-544 | the pointer step's lines are PointerLines of the moved particle |
| ParticleCanvas.FramesAfterLeave | script.js:555-558 | after `mouseleave`, the next two frames draw no pointer line |
| Navigation.LastCovering | script.js:57-63 | the result is the last section whose [top, top+height) contains the probe, and None if and only if no section does |
| Navigation.FirstLink | script.js:61 | the result is the first link with the href, and None if and only if no link has that href |
| Navigation.Highlight | script.js:61-67 | at most one link is active; it is the first link whose href is "#" + id, as `querySelector` returns; none is active if and only if no such link exists |
| Navigation.UpdateActiveNavLink | script.js:53-70 | if some section contains scrollY + 100, the active links are exactly the first link for the last such section; otherwise the active set is unchanged |
| Navigation.MobileMenu.constructor | script.js:4-5 | neither element starts active and the overflow style is unset |
| Navigation.MobileMenu.HamburgerClick | script.js:9-19 | the hamburger toggles, the menu toggles if it exists, and overflow is hidden if and only if the menu is now open (auto otherwise) |
| Navigation.MobileMenu.NavLinkClick | script.js:25-50 | any nav-link click closes the menu and sets overflow to auto; it is intercepted if and only if the href is present and starts with '#', and then it scrolls to the target's top minus 70 when the target exists |
| Navigation.MobileMenu.KeyDown | script.js:369-375 | Escape closes hamburger and menu; other keys change nothing; overflow is never touched, so after Escape the lock matches the menu if and only if overflow was not hidden |
| Navigation.EscapeKeepsScrollLock | script.js:9-19 | opening with the hamburger and closing with Escape (the keydown handler at script.js:369-375) leaves the menu closed with the body still scroll-locked |
| Blog.FeedView | script.js:146-151 | the articles are shown if and only if the status is "ok" and the items are present and non-empty; then between 1 and 6 of them, the first min(6, n) items |
| Blog.Tags | script.js:167 | absent categories give ["Security"]; present ones give their first min(3, n) entries |
| Blog.EmptyCategoriesNoTags | script.js:167 | an empty categories array is truthy and gives no tag at all |
| Blog.IndexOf | script.js:178 | the position of the first occurrence of the character |
| Blog.StripTags | script.js:178 | removing tags never lengthens the text; StripTagsPlain, StripTagsTag and StripTagsUnclosed fix its result on every input |
| Blog.StripTagsPlain | script.js:178 | text without a `<` is kept unchanged in front of the cleaned rest |
| Blog.StripTagsTag | script.js:178 | a `<` through the first `>` after it is one match of `<[^>]*>` and is removed entirely |
| Blog.StripTagsUnclosed | script.js:178 | a `<` with no `>` after it is not a match: it and the text after it are kept |
| Blog.StripTagsKeepsOnly | script.js:178 | removing tags introduces no character that was not in the text |
| Blog.StripTagsNoTags | script.js:178 | after removal no `<` is followed anywhere by a `>` |
| Blog.StripTagsOfNoTags | script.js:178 | text with no `<` before a `>` passes through unchanged |
| Blog.StripTagsIdempotent | script.js:178 | removing tags twice is removing them once |
| Blog.NoTagsPrefix | script.js:179 | the 150-character cut of tag-free text is tag-free |
| Blog.NoTagsEllipsis | script.js:179 | appending "..." keeps the text tag-free |
| Blog.CleanDescription | script.js:177-179 | the cleaned description ends in "...", and its body is the prefix of the text with tags removed of length min(150, length): all of that text when it is at most 150 characters, exactly 150 otherwise; it is at most 153 characters and holds no `<` followed by `>` |
| Counters.Digits | script.js:320 | the digits of the text, all decimal digits |
| Counters.NonDigits | script.js:321 | the other characters of the text, none a digit |
| Counters.DigitsAppend | script.js:320-321 | both replacements distribute over concatenation |
| Counters.DecimalValue | script.js:320 | `parseInt` of a string of decimal digits: the value read left to right in base 10 (a definition; Decimal's contract ties it to `String(n)`) |
| Counters.Target | script.js:320 | the number a stat counts to: for a text holding a digit, `parseInt` of the text's digits; 0 for a text without one, where `parseInt('')` is `NaN` (a definition; StatTextRoundTrip and SeparatorsMoveToEnd state its values) |
| Counters.StatText | script.js:331 | what a stat shows for the whole number n: `String(n)` followed by the suffix (a definition; StatTextRoundTrip states its round trip) |
| Counters.Decimal | script.js:331 | `String(n)` has only digits, reads back as n, and starts with '0' only when it is exactly "0" (so no leading zeros, and `String(0)` is "0") |
| Counters.DigitsOfDigits | script.js:320-321 | a string of digits keeps all its characters as digits and has no suffix |
| Counters.NonDigitsOfNonDigits | script.js:320-321 | a string without digits is all suffix |
| Counters.StatTextRoundTrip | script.js:320-331 | a stat written as a number followed by non-digits has that number as target and its tail as suffix, so the animation ends showing its original text |
| Counters.SeparatorsMoveToEnd | script.js:320-331 | "1,500+" has target 1500 and suffix ",+", so the animation ends showing "1500,+" |
| Counters.Progress | script.js:322-326 | the uncapped value after n ticks is never negative |
| Counters.BelowTarget | script.js:323-327 | before tick 50 the uncapped value is still below a positive target |
| Counters.ProgressStep | script.js:323-330 | one tick adds target/50, and the cap is first reached at tick 50 |
| Counters.AnimateStat | script.js:316-334 | tick k shows floor(min((k+1)*target/50, target)) followed by the suffix; there are exactly 50 ticks (1 when the target is 0); the shown numbers never decrease, never exceed the target, and the last text is the target followed by the suffix |
| Counters.TypeWriter | script.js:243-256 | after k calls the title shows exactly the first min(k, length) characters, and another call is pending if and only if k <= length |

## Left out

- Canvas drawing (`clearRect`, `arc`, `stroke`, styles). `Step` returns line records instead.
- `requestAnimationFrame` re-arming and `window` resize events. Frames and resizes are method calls.
- `getBoundingClientRect`, `offsetWidth`/`offsetHeight` and other DOM reads. They are arguments.
- IEEE-754 rounding and `Math.sqrt`. Arithmetic is exact `real`s and the root is a parameter.
- Counters.AnimateStat: repeated floating-point `current += increment` may fall just short of `target` after 50 ticks and take one more tick. The model's exact arithmetic reaches it at tick 50.
- Counters.AnimateStat: requires a digit in the text. Without one, `parseInt('')` is `NaN` and the counter shows `NaN` forever.
- Counters.Target: does not model `parseInt` precision beyond 2^53.
- Counters.StatText: `Math.floor(current) + suffix` (script.js:331) prints a number of 1e21 or more in exponent form, such as "1e+21". The model, through `Counters.Decimal`, prints every digit.
- Counters.TypeWriter: treats the text as plain characters. `innerHTML +=` re-parsing of markup characters is not modelled, and `charAt` counts UTF-16 code units where the model counts Dafny characters.
- Timing: the 30 ms stat interval, the 150 ms typing delay (script.js:263), the 1 s start delay and `setTimeout` scheduling. Ticks and calls are loop iterations.
- `fetch`, the `AbortController` timeout, `response.json()` and the loading-text check. The fetch outcome is the `Blog.FetchResult` argument.
- `displayBlogs` card HTML, `toLocaleDateString` date formatting and `showFallbackBlogs` markup.
- Blog.FeedView: `displayBlogs` runs inside the `try` (script.js:147), so a throw while rendering lands in the `catch` (script.js:152-155) and shows the fallback even for an "ok", non-empty feed. A missing `description` (script.js:177-178), a missing container (script.js:160) or non-sliceable `categories` (script.js:167) cause such a throw. The model decides on the payload alone and does not capture this path.
- Blog.CleanDescription: a missing description makes `displayBlogs` throw (see Blog.FeedView above). The model takes a string.
- Blog.CleanDescription: `substring` counts UTF-16 code units where the model counts Dafny characters.
- Navigation.Highlight: the id is pasted into the CSS selector `.nav-link[href="#id"]` (script.js:61). An id holding `"` or a line break makes the selector invalid, so `querySelector` throws. An id holding `\` is read as a CSS escape, so a different href is looked for. The model compares the href with `"#" + id` literally, so it matches the source only for ids without these characters.
- Navigation.UpdateActiveNavLink: when that `querySelector` throws, the handler stops part-way through `sections.forEach`. Earlier sections have already changed the active links, and later ones are never looked at. The model does not capture this path; it runs every section.
- Navigation.MobileMenu.NavLinkClick: `document.querySelector(href)` throws for some hrefs, among them `"#"`. The model receives the lookup result as an option.
- Smooth-scroll animation itself, IntersectionObserver reveals, Prism highlighting, tooltips, card tilt and parallax, hover styles, `debounce`, the navbar background on scroll, and console output. These are style mutations, library calls or timer plumbing.
