# Portfolio site: the behaviour behind the sections, in Dafny

This project models the logic inside the React components of a single-page
animated portfolio site and proves properties of it:

- `TypingEffect` (module `Typing`, class `TypingEffect`): the character-by-character
  text reveal. It has two state cells (`displayText`, `currentIndex`), one pending
  timeout whose closure captures the props and the index, and an effect that either
  schedules the next character or calls `onComplete`. A timeout firing is one
  abstract step (`Tick`). A re-render with new props is `Update`, and unmounting is
  `Unmount`.
- `HeroSection` (module `Hero`): three flags, each set by the `onComplete` of one
  typing effect, where each effect is only mounted once the previous flag is true.
- `ProjectsSection` (module `Projects`): the four-project table, the growing set of
  decrypted ids, `handleDecrypt`, the click guard, `getCardColor`, the card rendering
  and the "n/4" summary.
- `ContactSection` (module `Contact`): the `idle → connecting → connected` machine.
  `showTerminal`, the connect timer and the connecting indicator's typing effect are
  modelled with it, along with the rendering rules and the contacts table.
- `AboutSection` (module `About`): the constant skill and expertise tables, the legend
  they must agree with, and how a skill is drawn.
- `CyberGrid`'s `GridLines` (module `Grid`): the loop that builds 84 points, and
  the pairing of even indices with their successors into 42 axis-aligned segments.

The stateful components are classes whose methods change their fields. The
constant tables and the rendering rules are datatypes and functions. Scenario
methods (`RevealAll`, `PlayHero`, `ConnectFlow`, …) drive the classes through whole
runs and state what the page ends up showing.

`onComplete` is not called exactly once. The effect calls it again every time it
re-runs after the text is complete, for example whenever the parent passes a new
callback identity (`RerenderAfterCompletion`).

## Model

| member | source | states |
|---|---|---|
| `Typing.TypingEffect.constructor` | src/components/TypingEffect.tsx:10-30 | on mount both cells start empty at index 0 and `speed` defaults to 100. A timeout is pending iff the text is non-empty; for empty text `onComplete` runs at once, with no tick |
| `Typing.TypingEffect.RunEffect` | src/components/TypingEffect.tsx:19-30 | the effect schedules a timeout iff `currentIndex < text.length`; otherwise it invokes `onComplete` when one was passed |
| `Typing.TypingEffect.Tick` | src/components/TypingEffect.tsx:21-24 | a firing timeout appends exactly the character at the captured index and advances the index by one, never past `text.length`. It keeps "display = first `currentIndex` characters of text" and signals completion exactly when the end is reached |
| `Typing.TypingEffect.Update` | src/components/TypingEffect.tsx:19-30 | a re-render never resets the state cells. Changed dependencies cancel the pending timeout and re-run the effect, which re-invokes `onComplete` if typing is complete. The display stays coherent iff it is a prefix of the new text |
| `Typing.TypingEffect.Unmount` | src/components/TypingEffect.tsx:26 | cleanup cancels the pending timeout, so no character is appended after teardown |
| `Typing.RunUntilIdle` | src/components/TypingEffect.tsx:19-30 | letting every timeout fire reveals the rest of the text with one tick per remaining character, then signals completion once |
| `Typing.RevealAll` | src/components/TypingEffect.tsx:16-30 | from mount, the whole text is shown after exactly one tick per character, and `onComplete` has run once |
| `Typing.Utf16LengthOneUnitEach` | src/components/TypingEffect.tsx:20-22 | for a text whose every character is one UTF-16 code unit, the component's `text.length` equals the model's character count, so its tick counts are the component's |
| `Typing.RerenderAfterCompletion` | src/components/TypingEffect.tsx:27-30 | once typing is complete, each re-render with a new `onComplete` identity invokes it again, so it is not called exactly once |
| `Typing.ChangeTextMidway` | src/components/TypingEffect.tsx:16-30 | changing `text` after k characters does not reset state. The page ends up showing the old prefix plus the rest of the new text, which equals the new text iff the first k characters agree |
| `Hero.StepKeepsChain` | src/components/HeroSection.tsx:45-88 | a callback from a mounted typing effect keeps "buttons ⇒ subtitle ⇒ title" and never clears a flag |
| `Hero.StepIdempotent` | src/components/HeroSection.tsx:48-87 | a repeated `onComplete` call, as happens on every re-render, changes nothing |
| `Hero.RunKeepsChain` | src/components/HeroSection.tsx:54-88 | over any feasible sequence of callbacks the chain is kept and every flag is monotone |
| `Hero.RunSetsOnlyByCallback` | src/components/HeroSection.tsx:45-88 | each flag becomes true only through its own typing effect's completion |
| `Hero.ButtonsNeedAllThree` | src/components/HeroSection.tsx:10-88 | from all-false flags, the buttons appear only after all three typing effects completed |
| `Hero.Rendered` | src/components/HeroSection.tsx:54-127 | title, subtitle, action buttons and scroll indicator are each rendered exactly when their flag holds; buttons and scroll indicator appear together |
| `Hero.RenderedGrows` | src/components/HeroSection.tsx:54-127 | nothing rendered ever disappears along feasible callbacks |
| `Hero.HeroSection.constructor` | src/components/HeroSection.tsx:10-12 | all three flags start false |
| `Hero.HeroSection.Complete` | src/components/HeroSection.tsx:45-88 | a completion callback sets exactly its own flag and keeps the chain |
| `Hero.HeroTextLengths` | src/components/HeroSection.tsx:46-85 | the three texts passed to the typing effects are counted the same in UTF-16 code units and in characters |
| `Hero.PlayHero` | src/components/HeroSection.tsx:45-88 | left alone, the section reaches the buttons after exactly as many ticks as the three texts have characters |
| `Projects.ProjectTable` | src/components/ProjectsSection.tsx:18-57 | the four project ids, used as keys, are distinct, so there are four of them, the summary's denominator |
| `Projects.DecryptedAtMostTotal` | src/components/ProjectsSection.tsx:222 | a set of project ids has at most 4 members, so the summary never exceeds "4/4" |
| `Projects.CardColor` | src/components/ProjectsSection.tsx:66-74 | total: every category gets one of the four colours, and an unknown category falls back to cyan |
| `Projects.CardColorsDistinct` | src/components/ProjectsSection.tsx:18-74 | the four categories of the table get four different colours |
| `Projects.RenderCard` | src/components/ProjectsSection.tsx:111-206 | a card shows content, side bar and no overlay exactly when its id is decrypted; a click decrypts only an encrypted card |
| `Projects.AfterClickIsUnion` | src/components/ProjectsSection.tsx:62-64 | a guarded click yields `prev ∪ {id}`, and clicking twice equals clicking once |
| `Projects.ClicksGrow` | src/components/ProjectsSection.tsx:60-64 | any sequence of clicks never shrinks the set. Every clicked card is decrypted, and nothing else but project ids is added |
| `Projects.ProjectsSection.constructor` | src/components/ProjectsSection.tsx:60 | the decrypted set starts empty |
| `Projects.ProjectsSection.HandleDecrypt` | src/components/ProjectsSection.tsx:62-64 | the new set is the old set plus the id: it keeps every earlier id and adds nothing else |
| `Projects.ProjectsSection.ClickCard` | src/components/ProjectsSection.tsx:123 | `handleDecrypt` is called only for a card not yet decrypted, and the set stays within the project ids |
| `Projects.ProjectsSection.Summary` | src/components/ProjectsSection.tsx:222 | the summary shows the size of the set over 4, and the numerator is at most 4 |
| `Contact.TransitionAdvances` | src/components/ContactSection.tsx:11-17 | each of the two transitions moves one step along idle, connecting, connected |
| `Contact.TraceNeverRevisits` | src/components/ContactSection.tsx:8-17 | along any run no status is revisited, and a run has at most three statuses |
| `Contact.StatusGroups` | src/components/ContactSection.tsx:75-97 | exactly one status message group is rendered, the one for the current status |
| `Contact.Rendered` | src/components/ContactSection.tsx:100-172 | the connect button is rendered only in idle and the indicator only while connecting. Contact options and help appear exactly with `showTerminal` |
| `Contact.ConnectingTextLength` | src/components/ContactSection.tsx:125 | the indicator's text is counted the same in UTF-16 code units and in characters |
| `Contact.ContactTable` | src/components/ContactSection.tsx:19-48 | four contacts with distinct names, which are their keys |
| `Contact.ContactSection.constructor` | src/components/ContactSection.tsx:8-9 | starts idle with `showTerminal` false |
| `Contact.ContactSection.HandleConnect` | src/components/ContactSection.tsx:11-13 | reachable only where the button is rendered (idle); moves to connecting, schedules the timer and mounts the indicator's typing effect, empty and with speed 50 |
| `Contact.ContactSection.IndicatorTick` | src/components/ContactSection.tsx:116-125 | the indicator's typing advances by one character while connecting |
| `Contact.ContactSection.ConnectTimerFires` | src/components/ContactSection.tsx:13-16 | the timer sets connected and `showTerminal` in the same step, and the indicator's typing is torn down |
| `Contact.ConnectFlow` | src/components/ContactSection.tsx:8-17 | a full run passes idle, connecting, connected once each and ends with the contact options and help shown |
| `About.RenderSkill` | src/components/AboutSection.tsx:185-216 | the "Learning" badge and 0.7 bar opacity appear iff status is 'learning'; bar width equals the printed percentage |
| `About.DimmedExactlyBelowEighty` | src/components/AboutSection.tsx:215-236 | for a skill that agrees with the legend, the dimmed bars are exactly those at 70% or less |
| `About.SkillTableMatchesLegend` | src/components/AboutSection.tsx:6-61 | every skill level is a percentage in 0..100. Learning skills lie in 50..70 and proficient ones are 80 or more, as the legend says |
| `About.KeysDistinct` | src/components/AboutSection.tsx:6-88 | category names, skill names within a category, and expertise titles are distinct keys |
| `Grid.BuildPoints` | src/components/CyberGrid.tsx:7-19 | the loop builds exactly the points of the iterations i = -20, -18, …, 20, four per iteration, in push order |
| `Grid.PointsFromSize` | src/components/CyberGrid.tsx:12-19 | from i on the loop lattice, the loop makes (20 - i) / 2 + 1 iterations of four points each |
| `Grid.PointCount` | src/components/CyberGrid.tsx:12-19 | 21 iterations, 84 points |
| `Grid.PointsFromAt` | src/components/CyberGrid.tsx:12-18 | point k is point k mod 4 of the iteration for i = -20 + 2·(k div 4) |
| `Grid.PairsAt` | src/components/CyberGrid.tsx:23-37 | pairing yields ⌊n/2⌋ segments, segment m joining points 2m and 2m+1 |
| `Grid.LinesFromArePairs` | src/components/CyberGrid.tsx:23-37 | the map that emits a line for each even index with a successor (null elsewhere) equals the pairing |
| `Grid.BuiltPointsInBounds` | src/components/CyberGrid.tsx:12-18 | the loop's 84 points all have coordinates in [-20, 20] and y = 0 |
| `Grid.BuiltPairsAxisAligned` | src/components/CyberGrid.tsx:12-18 | points 2m and 2m+1 are the two ends of one full-width line along x or along z |
| `Grid.GridLines` | src/components/CyberGrid.tsx:6-37 | the drawn grid has 84 points, all in bounds with y = 0. It has 42 segments (2m, 2m+1), each a full-width line along x at fixed z or along z at fixed x |

## Left out

- Elapsed time: a timeout firing is one abstract step. `speed` matters only as a dependency of the effect: changing it re-runs the effect (`Typing.TypingEffect.Update`), which calls `onComplete` again once typing is complete. Its value as a delay is not modelled, and neither is the 2000 ms connect delay.
- React's own scheduling (batching, StrictMode double effects, render timing): a tick applies both state updates together, then re-runs the effect.
- `Hero.PlayHero` composes the three typing effects through `Typing.RevealAll` results, not as objects owned by the hero class. Re-invocation of a completed effect's `onComplete` on later hero re-renders is covered by `Hero.StepIdempotent`, not replayed.
- Animation values of framer-motion (opacity, offsets, durations, delays), class-name templating, colours in CSS, icons, the `Button` component and anchor links: presentational only.
- Project fields other than id, title and category: description, tech list, the unused `status`, URLs and icon. Contact descriptions and icons are left out too.
- `FloatingNodes`, the canvas, the lights and `OrbitControls` of the 3D background: random, floating-point and foreign rendering.
- Grid coordinates are floating-point vectors in the component; all the values are whole numbers, so they are modelled as integers.
- The page shell (`src/pages/Index.tsx`: theme class on the document, load listeners, logging) and `tailwind.config.ts`: I/O and styling configuration.
- Typed commands: the help listing names commands, but no component reads typed input.
- `Typing.RevealAll`, `Typing.TypingEffect.Tick` and the other typing members count characters (Unicode scalar values), while the component counts UTF-16 code units. A character outside the Basic Multilingual Plane takes two ticks in the component, with a lone surrogate shown after the first; here it takes one. `Typing.Utf16Length` gives the component's count, and `Hero.HeroTextLengths` and `Contact.ConnectingTextLength` show that the two agree for every text the site passes.
