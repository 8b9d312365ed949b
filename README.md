# Emergency request fan-out, modelled in Dafny

This project models the one piece of logic in the `curio-campus` Cloud
Functions: `onEmergencyRequestCreated` in `functions/index.js`. When an
emergency request document is created, the handler reads its
`requiredSkills` list and builds one push message per skill. Each message is
published to the topic `skill_<formatted skill>`. The formatted skill is the
skill lower-cased, with every maximal whitespace run replaced by one `_`.
The handler's promise resolves with `null` on every path, including when
sends fail.

Three modules, one file each:

- `Ascii` (`ascii.dfy`): the character classes behind the topic rule. These
  are ASCII letters, and the ASCII part of JavaScript's `\s` class (space,
  tab, line feed, vertical tab, form feed, carriage return).
- `SkillTopic` (`skill_topic.dfy`): topic derivation. `LowerCase` is
  lower-casing and `CollapseRuns` is the global replacement of `\s+` by `_`. `FormatSkill`
  composes the two and `TopicFor` adds the prefix. A separate
  position-by-position definition (`Contribution`, `ContributionsFrom`) is
  proved equal to `FormatSkill`. Lemmas show that a whitespace run of any
  length becomes exactly one underscore, and that formatting is idempotent.
- `EmergencyDispatch` (`emergency_dispatch.dfy`): the document fields, the
  message literal, the per-skill `map`, and the handler. The handler
  receives the document and its id as parameters. The push service is a
  parameter `send: nat -> SendOutcome`, which gives the answer to the i-th
  submission. The handler's result is an `Invocation`. It records the
  submitted messages, each submission's outcome, which exit was taken (no
  skills, all delivered, or error caught) and how the promise settles.

A missing document field interpolated into a template string renders as
`"undefined"`. The one helper that does this is `Interpolate`. The
`requesterId` and `requesterName` in `data` keep their absence as
`Option.None`.

## Model

| member | source | states |
|---|---|---|
| `Ascii.ToLower` | functions/index.js:27 | the result is never an upper-case letter; upper-case letters become the matching lower-case letter; every other character is unchanged; whether a character is whitespace is unchanged |
| `SkillTopic.LowerCase` | functions/index.js:27 | same length, and each character is the lower-case form of the character at the same position; no upper-case letter in the result; whitespace stays at the same positions; text without upper case comes back unchanged |
| `SkillTopic.LeadingRun` | functions/index.js:28 | the length of what one match of `\s+` consumes at the front: at most the whole text, and at least one character when the text starts with whitespace |
| `SkillTopic.LeadingRunSpec` | functions/index.js:28 | the match is maximal: every character it covers is whitespace, and the next character, if any, is not |
| `SkillTopic.CollapseRuns` | functions/index.js:28 | the result is no longer than the input |
| `SkillTopic.CollapseRemovesWhitespace` | functions/index.js:28 | no whitespace character is left after replacing runs |
| `SkillTopic.CollapseKeepsNoUpper` | functions/index.js:27-28 | replacing whitespace runs with `_` introduces no upper-case letter |
| `SkillTopic.CollapseFixesNoWhitespace` | functions/index.js:28 | text with no whitespace is left unchanged by the replacement |
| `SkillTopic.FormatSkill` | functions/index.js:27-28 | the formatted skill is no longer than the skill and has no whitespace and no upper-case letter |
| `SkillTopic.TopicFor` | functions/index.js:29 | the topic starts with `skill_`; the rest of it is exactly the formatted skill; it has no whitespace and no upper case; its length is at most 6 plus the skill's length |
| `SkillTopic.ContributionsMatchCollapse` | functions/index.js:27-28 | from any position not strictly inside a whitespace run, the per-position contributions equal the run replacement applied to the rest of the lower-cased skill |
| `SkillTopic.FormatSkillByPosition` | functions/index.js:27-28 | the formatted skill is, position by position in order: the lower-case form of each non-whitespace character, one `_` for the first character of each whitespace run, and nothing for the rest of that run |
| `SkillTopic.CollapseAppend` | functions/index.js:28 | the replacement distributes over a concatenation whose left part is empty or ends in a non-whitespace character |
| `SkillTopic.RunBecomesOneUnderscore` | functions/index.js:27-28 | a maximal whitespace run of any length between two parts becomes exactly one `_`, and the two parts are formatted independently |
| `SkillTopic.FormatIdempotent` | functions/index.js:27-28 | formatting a formatted skill changes nothing |
| `SkillTopic.TopicOfFormattedSkill` | functions/index.js:27-29 | a skill and its formatted form are routed to the same topic |
| `SkillTopic.FormatWithoutWhitespace` | functions/index.js:27-28 | for a skill with no whitespace, formatting is lower-casing alone |
| `SkillTopic.TwoWordTopic` | functions/index.js:27-29 | two whitespace-free words joined by one space give `skill_` + first word lower-cased + `_` + second word lower-cased |
| `SkillTopic.WaterRescueTopic` | functions/index.js:27-29 | `"Water Rescue"` is routed to `skill_water_rescue` |
| `EmergencyDispatch.Interpolate` | functions/index.js:35-36 | a field interpolated into a template string renders as its text when present and as `"undefined"` when missing |
| `EmergencyDispatch.RequiredSkills` | functions/index.js:18 | a missing skill list is read as the empty list; a present one is read as it is |
| `EmergencyDispatch.MessageFor` | functions/index.js:33-49 | the topic is the derived topic of the skill; `data.skill` is the original skill; the title is `Emergency Request: ` + title; the body is requester name + ` needs help with ` + skill; `type`, `channel_id`, `isOwnRequest` and `click_action` are `emergency`, `emergency_channel`, `false` and `FLUTTER_NOTIFICATION_CLICK`; `requestId` is the document id; requester id and name are copied from the document |
| `EmergencyDispatch.Messages` | functions/index.js:26-52 | exactly one message per skill, and message i is the message for skill i |
| `EmergencyDispatch.OnEmergencyRequestCreated` | functions/index.js:12-61 | the handler always resolves with null; it submits exactly the messages for the skill list, treating a missing list as empty; there is one outcome per submission, and it is the push service's answer; the no-skills exit is taken exactly when the list is empty; the error exit is taken exactly when some submission failed; the all-delivered exit reports the number of skills |
| `EmergencyDispatch.SkillsOf` | functions/index.js:43 | reads each message's `data.skill`, one per message, in order |
| `EmergencyDispatch.SkillsRoundTrip` | functions/index.js:26 | reading the skills back from the built messages gives the original list, in order and with repetitions |
| `EmergencyDispatch.MessagesAppend` | functions/index.js:26 | the messages for a concatenation of skill lists are the concatenation of the messages for each list |
| `EmergencyDispatch.DuplicateSkillsKept` | functions/index.js:26 | a skill listed twice is submitted twice, as two identical messages |
| `EmergencyDispatch.NoSkillsNoMessages` | functions/index.js:18-23 | a missing or empty skill list submits nothing, takes the no-skills exit and resolves with null |
| `EmergencyDispatch.OutcomesDoNotAffectDispatch` | functions/index.js:54-61 | whatever the push service answers, the same messages are submitted and the handler resolves with null, so send errors are swallowed |
| `EmergencyDispatch.SubmittedTopicsWellFormed` | functions/index.js:26-29 | submitted message i carries skill i, and its topic is `skill_` + the formatted form of that skill, with no whitespace and no upper case |

## Left out

- `helloWorld` (functions/index.js:6-8): a fixed HTTP response with no logic.
- `admin.initializeApp()` and the SDK imports (functions/index.js:1-4): global set-up of foreign SDKs.
- The Firestore trigger wiring, `snap.data()` and `context.params` (functions/index.js:10-14): the document and its id are parameters instead.
- `admin.messaging().send` and `Promise.all` (functions/index.js:51, 54): a network call and a concurrent join. Each submission's answer is the parameter `send(i)`. Timing and the order in which answers arrive are not modelled.
- `console.log` / `console.error` (functions/index.js:16, 21, 31, 55, 59): logging. Only the exit it marks is kept, as `Invocation.completion`.
- Full Unicode `toLowerCase` and the full JavaScript `\s` class: the model knows only ASCII letters and ASCII whitespace. A non-ASCII character counts as neither, so it passes through unchanged. JavaScript would differ here: it replaces U+00A0 (no-break space) as whitespace and lower-cases letters such as `É`.
- JavaScript coercion in general: `requiredSkills` is either missing or a list of strings. In the source a falsy non-list value (`null`, `false`, `0`, `""`) behaves like a missing field; the model has only the missing case. Likewise a stored `null` or non-string `title` or `requesterName` renders in the source as `"null"` or as its string form, not as `"undefined"`; `Interpolate` covers only a missing field. A non-string skill, whose `toLowerCase` call would throw inside the async callback, is not modelled.
- Waiting on the sends: when a send fails, `Promise.all` rejects as soon as the first rejection arrives, so the handler does not wait for the other submissions to settle. The handler is sometimes described as awaiting every submission; the code does not, and the model follows the code. Because timing is not modelled, `Invocation.outcomes` records every submission's outcome either way.
