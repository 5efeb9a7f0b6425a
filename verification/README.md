# Retro Deck

Retro Deck is a handheld console: a dashboard that starts emulators, a terminal and a music player, on either a rotated
framebuffer or a compositor's widget, fed by a compiled catalog that an upload service extends. This project models the
parts of it that are algorithms or protocols, and proves what they promise over whole runs.

- **Dashboard** (`dashboard_*.dfy`, `controller_guard.dfy`). The reducer is written twice: as functions of a state value,
  and as the object `App` whose methods update their fields and are proved to compute those functions. The same holds for
  the driver, which carries effects out and feeds completions back recursively. Devices answer through an oracle: the n-th
  effect of a run gets the n-th answer, and every answer is possible.
- **Game video** (`pixels.dfy`, `game_video.dfy`, `game_widget.dfy`, `scanout.dfy`, `video_agreement.dfy`). The two
  framebuffer loops, the widget's scaling and the dashboard's rotation, in place on arrays, against one picture.
- **Catalog** (`catalog_*.dfy`, `appearance_store.dfy`, `text_rows.dfy`). The reader, its comments and strings as in
  ANSI INCITS 226-1994 sections 2.4.5 and 2.4.8.19, the schema, the printers, and the loaders elsewhere that read what was
  printed. Printed text is a tree of tokens with gaps between them.
- **Audio** (`audio_*.dfy`, `resampler.dfy`, `opl_*.dfy`, `ogg_player.dfy`, `chiptune_*.dfy`). The queue between callback
  and writer thread, where each section under the lock is one atomic step; the resampler; the music driver's clock,
  callback queue and batches; the Ogg block assembler; the player's back-pressure.
- **Uploads** (`rom_formats.dfy`, `upload_rows.dfy`, `publication.dfy`, `uploader.dfy`). The disk is what is visible and,
  for each name that was changed and not synced, what a power loss may bring back.
- **Smaller parts** (`nes_sram.dfy`, `widget_protocol.dfy`, `joypad.dfy`, `process_supervision.dfy`, `settings.dfy`).

Some claims turned out to need a condition, and the model says which:

- A touch batch can lose a launch (`DashboardRuns.TouchReplacesLaunch`): it survives exactly the touches that save nothing
  (`DashboardBatches.LaunchSurvivesTouch`), and a batch ends with the launch asked for last
  (`DashboardBatches.BatchEndsWithLastAsked`).
- The comment in `native/doom/opl_retrodeck.c:522-525` says that the clock advances by exactly the frames consumed, but
  each step is rounded down: at 44100 Hz a frame counts 22 microseconds. The clock is exact only when the rate divides
  10^6 (`OplBatches.ClockIsExactWhenRateDivides`). That a batch never overruns a callback does not need it, but needs that
  nothing is scheduled inside the batch in hand and that a batch is begun on a paused clock only when the first callback is
  more than 254 clock steps away; both conditions are exact (`OplBatches.ScheduleInsideBatchOverruns`,
  `OplBatches.PausedBatchHolds`, `OplBatches.PausedBatchOverruns`).
- A brightness survives on every backlight with at least twelve steps, and also on the one with ten, and on no other
  (`Settings.BrightnessRoundTripsExactly`).
- After a failed flush, and only then, the widget draws into a buffer the compositor still holds, and commits a frame too
  many exactly when it is only prepared (`WidgetProtocol.PresentAgain`, `WidgetProtocol.TwoFramesWhilePrepared`); a resize
  keeps buffers of the old shape exactly when the number of bytes stays (`WidgetProtocol.Widget.EnsureSlots`).
- A row may be without its file after a power loss exactly when the file's appearance was not synced
  (`Publication.LostExactlyWhenUnsynced`), and the uploader reports a file as not durable exactly then
  (`UploaderStorage.Uploader.AddRom`).

`dafny verify dfyconfig.toml` checks the whole project.

## Model

| member | source | states |
|---|---|---|
| DashboardRuns.RunIsSafe | native/src/dashboard/runtime.rs:530-616 | Over every run of the loop and every answer of the devices: no completion comes out of order, no branch that would panic is reached, no touch on the dashboard finds the layout missing, nothing is pending between iterations, and only a failing device or a borrowed display ends the run with an error. |
| DashboardRuns.IterationIsSafe | native/src/dashboard/runtime.rs:530-616 | One iteration started at rest with its layout present ends at rest with its layout present, unless a device fails. |
| DashboardRuns.StepIsSafe | native/src/dashboard/runtime.rs:515-529 | One event and the whole recursion of completions it sets off keeps the state coherent and leaves nothing pending, except the launch a touch batch asked for, or the launch a key asked for with the rest of the touches discarded. |
| DashboardRuns.EffectsAreSafe | native/src/dashboard/runtime.rs:515-529 | A list of effects, carried out in order with completions fed back in between, leaves exactly the pending action that the list itself leaves. |
| DashboardRuns.TouchesAreSafe | native/src/dashboard/runtime.rs:590-601 | All touches of a batch are reduced in turn with the layout present; at most a launch asked for by a touch stays pending. |
| DashboardRuns.LaunchIsSafe | native/src/dashboard/runtime.rs:602-607 | Carrying out the launch left over at the end of an iteration brings the run to rest. |
| DashboardRuns.AnswerIsInTurn | native/src/dashboard/runtime.rs:369-514 | The completion an effect returns is one that `check_pending` accepts in the state the effect was carried out in, and it has the rank foreseen for it. |
| DashboardRuns.PerformKeeps | native/src/dashboard/runtime.rs:369-514 | Only the end of the loop stops the runtime, and only `Render` decides whether a menu layout exists. |
| DashboardRuns.OnlyTouchLaunchesYield | native/src/dashboard/app.rs:545-571 | The pending action that lets another input event through is exactly a launch asked for by a touch, and it lets through only touches. |
| DashboardRuns.TouchReplacesLaunch | native/src/dashboard/app.rs:545-571 | Such a launch can be forgotten: a tap on the keymap in the same batch does it. |
| DashboardBatches.LaunchSurvivesTouch | native/src/dashboard/app.rs:545-571 | A launch that a touch asked for survives a later touch of its batch exactly when that touch does not complete a tap on a control that saves at once: volume, brightness or keymap in the settings, or save with a valid network on the Wi-Fi page. |
| DashboardBatches.TouchSettles | native/src/dashboard/app.rs:661-698 | For every touch in every view, what is pending afterwards is the launch the touch asks for, nothing when it saves a setting, and otherwise what was pending; a reboot card asks only while it is armed. |
| DashboardBatches.BatchEndsWithLastAsked | native/src/dashboard/runtime.rs:590-601 | A whole batch, with all completions carried out in between, ends with a launch pending exactly when that launch was asked for last, before the batch or by one of its touches, and no later touch dropped it. |
| DashboardRuns.InitialIsCoherent | native/src/dashboard/app.rs:258-293 | The initial state is coherent, at rest, on the dashboard, with no reboot armed. |
| DashboardRuntime.CompletionsDescend | native/src/dashboard/runtime.rs:515-529 | Whatever an event makes the reducer ask for can only be answered by events of lower rank, so the mutual recursion of `step` and `effect` ends. |
| DashboardProtocol.ReductionIsSound | native/src/dashboard/app.rs:572-838 | Reducing an event in its turn from a coherent state never fails; it keeps the `open` flags equal to the view, keeps a reboot armed only on the dashboard, asks only for effects whose answers fit what is pending, and renders whenever it enters the dashboard view. |
| DashboardProtocol.TouchIsSound | native/src/dashboard/app.rs:661-698 | The same for a touch in any of the four views, provided the dashboard has its layout. |
| DashboardProtocol.ControlsIsSound | native/src/dashboard/app.rs:630-660 | The same for keys and controller edges. |
| DashboardProtocol.TickIsSound | native/src/dashboard/app.rs:605-629 | The same for the clock. |
| DashboardProtocol.BeginIsSound | native/src/dashboard/app.rs:579-604 | The same for the start of an iteration. |
| DashboardProtocol.ChildReturnedIsSound | native/src/dashboard/app.rs:789-808 | The return of a program either ends the loop or begins the recovery that waits for the controls. |
| DashboardProtocol.ObeyIsSound | native/src/dashboard/app.rs:397-492 | Every command keeps the protocol, from every view. |
| DashboardProtocol.WifiTouchIsSound | native/src/dashboard/app.rs:840-877 | Every touch of the Wi-Fi page keeps the protocol and its two `open` flags. |
| DashboardReboot.RebootNeedsTwoConfirmations | native/src/dashboard/app.rs:347-368 | In any run, whenever the launch of an entry named `reboot` becomes pending, the event that did it confirmed such an entry, and an earlier event less than 4000 ms before did too, with no navigation, other launch, page change or release off a reboot card in between. |
| DashboardReboot.ArmedHistory | native/src/dashboard/app.rs:304-314 | A reboot is armed only on the dashboard, and only because of an undisturbed confirmation exactly 4000 ms before its deadline. |
| DashboardReboot.StepFuse | native/src/dashboard/app.rs:572-838 | No event but a confirmation arms a reboot or makes its launch pending, and every disturbing event disarms it. |
| DashboardReboot.DashboardTouchFuse | native/src/dashboard/app.rs:493-543 | A release off the reboot card disarms; a release on it within the deadline is the second confirmation. |
| DashboardApp.App.Reduce | native/src/dashboard/app.rs:572-838 | The reducer as an object updated in place does to its fields, and returns, exactly what the reduction function says for every event, including the refusals. |
| DashboardDriver.Runtime.Step | native/src/dashboard/runtime.rs:515-529 | The recursive driver over a mutable `App` ends and computes the step function, faults included. |
| DashboardDriver.Runtime.Carry | native/src/dashboard/runtime.rs:369-514 | Carries out one effect and the completions after it, as the effect function says. |
| DashboardDriver.Runtime.Iteration | native/src/dashboard/runtime.rs:530-616 | One iteration over the mutable objects computes the iteration function on which the safety of runs is proved. |
| DashboardDriver.Runtime.Loop | native/src/dashboard/runtime.rs:530-616 | The loop over the mutable objects, for any inputs: from rest it comes back to rest, with nothing pending, the flags matching the view and the layout there for the dashboard; it fails only with a device or for a borrowed display. |
| ControllerGuard.BurstBound | native/src/dashboard/policy.rs:476-512 | In any run with nondecreasing time, through any number of suspensions and recoveries, at most 12 edges are accepted in any half-open second and at most 13 times are stored. |
| ControllerGuard.RecoversExactlyWhenQuiet | native/src/dashboard/policy.rs:500-511 | A suspended guard recovers at a check exactly when the newest edge is at least 1000 ms old, and is then as new. |
| ControllerGuard.LastEdgeIsStored | native/src/dashboard/policy.rs:486-499 | The stored last edge is the newest edge of the run that no recovery erased, accepted or not. |
| ControllerGuard.RunKeeps | native/src/dashboard/policy.rs:476-512 | The invariant behind both: the stored times are exactly the accepted edges that a window can still hold. |
| ControllerGuard.Cell.AcceptEdge | native/src/dashboard/policy.rs:486-499 | The record that `App` holds, updated in place, accepts exactly the edges of the accept function and becomes its guard. |
| ControllerGuard.Cell.RecoverIfQuiet | native/src/dashboard/policy.rs:500-511 | The record that `App` holds, updated in place, recovers exactly when the recover function does. |
| GameVideo.LayoutExists | native/src/game_video.rs:22-51 | A layout exists exactly for sources of 1 to 1248 by 1 to 448; it is centred, inside the 16-pixel inset, and of the largest whole scale that fits. |
| GameVideo.DrawRgb565 | native/src/game_video.rs:188-210 | Column by column, with runs along physical rows: every word inside the picture is the nearest-neighbour pixel of the rotated source, and every other word is unchanged. |
| GameVideo.DrawXrgb | native/src/game_video.rs:211-235 | In the opposite loop order the 32-bit path meets the same specification, pixel by pixel after dropping low bits. |
| GameVideo.FbTarget.BeginFrame | native/src/game_video.rs:163-170 | Both buffers are black when the size changed, and unchanged otherwise. |
| GameVideo.FbTarget.Publish | native/src/game_video.rs:171-187 | The mapped memory takes over the staged rows and columns of the picture and nothing else. |
| GameVideo.FbTarget.Present | native/src/game_video.rs:294-380 | A frame is shown exactly when its buffer and size allow it; then the scanout is its picture on black, whatever was shown before; otherwise the memory is untouched. |
| GameWidget.ConvertToXrgb | native/src/game_video.rs:236-265 | Every pixel is converted with its channels spread over eight bits, for any row pitch and both formats. |
| GameWidget.ScaleGameFrame | native/src/wayland.rs:621-661 | Filling a row and duplicating it gives the centred nearest-neighbour image; everything outside is unchanged, and so is the surface when the frame does not fit. |
| Pixels.SpreadThenDrop | native/src/game_video.rs:80-86 | Spreading a 16-bit pixel over eight bits a channel and dropping the low bits again gives the same pixel. |
| VideoAgreement.PathsAgree | native/src/game_video.rs:22-51 | The framebuffer word at a rotated place is the 16-bit form of the widget pixel at that place, for every accepted size, row stride of at least 600 words and both pixel formats; the rest of the framebuffer is black. |
| VideoAgreement.PresentRun | native/src/game_video.rs:294-380 | After any run of presents with changing sizes and formats, the scanout shows the last accepted frame as if on a black screen; when none was accepted, the memory is unchanged. |
| VideoAgreement.ScanoutIsStagedSurface | native/src/fbdev.rs:199-217 | The scanout equals, word for word, what the dashboard's own rotation makes of the widget's surface. |
| VideoAgreement.SamePlace | native/src/wayland.rs:638-651 | Both paths choose the same scale and place for every size the framebuffer accepts. |
| VideoAgreement.WidgetFits | native/src/wayland.rs:638-651 | The widget path also draws frames of up to 1280 by 480, exactly. |
| VideoAgreement.SamePixel | native/src/game_video.rs:236-265 | Converting a pixel for the widget and truncating it gives the pixel the framebuffer path draws. |
| Scanout.StageCanvasForScanout | native/src/fbdev.rs:199-217 | Accepts exactly the right sizes; the frame becomes the canvas turned by a quarter, and words beside it stay; a refusal changes nothing. |
| Scanout.ReadScanoutIntoCanvas | native/src/fbdev.rs:219-237 | Accepts exactly the right sizes; the canvas becomes the frame turned back; a refusal changes nothing. |
| Scanout.RotationRoundTrip | native/src/fbdev.rs:199-237 | Reading a staged scanout gives back the canvas. |
| CatalogRoundTrip.ReaderUndoesPrinter | native/src/catalog.rs:53-205 | Any form of list nesting at most 32, at most 4096 nodes and lower-case keywords, written in at most 65536 bytes with any white space, line comments (the last one ended by the source) and nested block comments (also with bars beside their marks) between its tokens, is read back unchanged. |
| CatalogGaps.SkipsExactlyGaps | native/src/catalog.rs:57-94 | From any place in any source the reader skips to a place exactly when what stands between is white space, line comments and well-nested block comments within the limit, and nothing more of that follows. |
| CatalogGaps.BlockWasWritten | native/src/catalog.rs:57-94 | Whenever a block comment is skipped, at any depth, what was skipped is text and nested comments with matching marks. |
| CatalogRoundTrip.PlainRoundTrip | native/src/catalog.rs:53-205 | In particular its plain printing is. |
| CatalogRoundTrip.ReadFormIsSound | native/src/catalog.rs:95-189 | Whatever is read has at most 4096 nodes, nesting at most 32 and lower-case keywords, and the node counter counts its nodes. |
| CatalogRoundTrip.ReadingIsStable | native/src/catalog.rs:190-205 | So every accepted source has a plain form that is read as the same form, when it is short enough. |
| CatalogRoundTrip.SkipsParts | native/src/catalog.rs:57-94 | The contents of a block comment, with comments nested in it, are skipped to its end. |
| CatalogRoundTrip.ReadsString | native/src/catalog.rs:122-147 | A string whose quotes and backslashes are escaped is read as the string. |
| CatalogReader.Read | native/src/catalog.rs:190-205 | The reader object with its moving cursor computes the reading function, never passes the end and ends. |
| CatalogReader.Reader.Skip | native/src/catalog.rs:57-94 | Skipping white space and comments in a loop computes the skipping function. |
| CatalogReader.Reader.SkipComment | native/src/catalog.rs:70-89 | Skipping a nested comment in a loop computes the skipping function, or reports its end or depth. |
| CatalogReader.Reader.NextForm | native/src/catalog.rs:95-189 | Reading one form computes the reading function on cursor and node count. |
| CatalogReader.Reader.Items | native/src/catalog.rs:110-121 | Reading list items in a loop computes the reading function. |
| CatalogReader.Reader.StringBody | native/src/catalog.rs:122-147 | Reading a string body in a loop computes the reading function. |
| CatalogSchema.ParsedCatalogIsValid | native/src/catalog.rs:364-388 | Every accepted catalog has 1 to 64 games with distinct ids and paths, each of them valid, and every palette role in canonical order with a canonical colour. |
| CatalogComplete.AcceptedExactlyWhenValid | native/src/catalog.rs:364-388 | A catalog is what some source means exactly when it satisfies the schema: nothing else is accepted, and nothing the schema allows is out of reach of the reader's limits. |
| CatalogComplete.ValidCatalogsAreAccepted | native/src/catalog.rs:364-388 | Every catalog the schema allows, written as a form and printed, stays within the limits on bytes, nodes and depth, and `parse_catalog` gives the same catalog back, games in order. |
| CatalogComplete.GameIsRead | native/src/catalog.rs:307-361 | The property list written for a valid game is read back as that game. |
| CatalogComplete.PlistIsRead | native/src/catalog.rs:214-242 | A property list with distinct keys is read back with every key bound to the form that follows it. |
| CatalogSchema.GameIsValid | native/src/catalog.rs:307-361 | Every accepted game has a well-formed id, title, system, normalized path below its system's directory and an xterm colour. |
| CatalogSchema.UpperHexIsCanonical | native/src/catalog.rs:257-266 | Upper-casing a colour makes it canonical without changing its value. |
| CatalogTsv.GamesRoundTrip | native/src/catalog.rs:424-433 | For every accepted catalog source, the dashboard loads the compiled file as the same games in the same order. |
| CatalogTsv.ValidGamesRoundTrip | native/src/dashboard/policy.rs:170-232 | The same for any valid catalog: sizes, line lengths, uniqueness, header and comment rules never get in the way. |
| CatalogTsv.PaletteRoundTrip | native/src/dashboard/policy.rs:233-277 | A compiled palette is loaded as the same roles, in canonical order, with the same colours. |
| CatalogTsv.LoadGames | native/src/dashboard/policy.rs:170-232 | The loader's loop over lines computes the loading function. |
| CatalogTsv.LoadPalette | native/src/dashboard/policy.rs:233-277 | The loader's loop over lines computes the loading function. |
| CatalogTsv.LoadsGameRow | native/src/dashboard/policy.rs:170-225 | One written game is loaded as itself; it is never taken for a header or a comment. |
| TextRows.LinesOfRows | native/src/dashboard/policy.rs:170-180 | Rows without a newline or a trailing carriage return, each ended by a newline, are the lines of the text. |
| TextRows.SplitJoin | native/src/dashboard/policy.rs:182-183 | Fields without the separator come back from a joined row. |
| CatalogAppearance.AppearanceRoundTrip | native/src/uploader/mod.rs:491-498 | Reading a saved appearance gives back every valid palette, and the file fits the 4096 bytes it is read with. |
| CatalogAppearance.AppearanceShows | native/src/uploader/mod.rs:491-498 | The saved text is a written form: its lines and blanks are gaps between tokens. |
| CatalogAppearance.PairsUp | native/src/catalog.rs:214-242 | Written role and colour pairs are gathered under their roles. |
| AppearanceStore.SavedPaletteIsCurrent | native/src/uploader/mod.rs:452-474 | After a palette is saved it is the current one, whatever valid palette the device was installed with. |
| AppearanceStore.CompiledPaletteIsRead | native/src/uploader/mod.rs:419-451 | The uploader's own parser reads a compiled palette as the same roles with the same colours, within its 4096 bytes. |
| AppearanceStore.CompiledPaletteIsCurrent | native/src/uploader/mod.rs:452-474 | Without a saved appearance the compiled palette is the current one. |
| AudioRuns.RunKeepsBooks | native/src/game_audio.rs:149-262 | After any interleaving of producer, writer, discard, device failure and close: the queue is the newest part of everything accepted, at most 16384 samples; every sample accepted, with the opening silence, was taken, dropped, discarded or is queued; and the chunks taken are pieces of that history in order, none of them twice. |
| AudioRuns.LosslessRun | native/src/game_audio.rs:149-262 | Without discard or failure, and as long as nothing was dropped, the writer has received the silence and then exactly what was offered, up to what is queued. |
| AudioRuns.OfferKeeps | native/src/game_audio.rs:236-262 | Offering samples keeps the books. |
| AudioRuns.DrawKeeps | native/src/game_audio.rs:149-172 | Taking a chunk keeps the books. |
| AudioRuns.LosingKeeps | native/src/game_audio.rs:173-189 | Failing, discarding and closing keep the books. |
| AudioRuns.Perform | native/src/game_audio.rs:191-262 | The ring object, run through any list of steps, is in the state the run function gives. |
| AudioRuns.Device.Apply | native/src/game_audio.rs:149-346 | Each step on the ring object computes the step function. |
| AudioRing.Ring.Enqueue | native/src/game_audio.rs:236-262 | The contents become the newest samples of old and new that fit, and exactly what went is counted; a closed, stopping or failed queue ignores the samples. |
| AudioRing.Ring.Take | native/src/game_audio.rs:156-172 | At most 2048 samples come off the old end in order, with no index outside the buffer and no division by an empty one. |
| AudioRing.Ring.Open | native/src/game_audio.rs:209-217 | A new queue of 16384 with 1024 samples of silence. |
| AudioRing.Ring.FailWrite | native/src/game_audio.rs:182-187 | A failed write empties the queue and marks it failed. |
| AudioRing.Ring.FailTrigger | native/src/game_audio.rs:173-180 | A failed start marks the queue failed and keeps its contents. |
| AudioRing.Ring.DiscardPending | native/src/game_audio.rs:317-321 | The queue is empty. |
| AudioRing.Ring.FinishClose | native/src/game_audio.rs:331-347 | The closed queue has no buffer and no contents. |
| AudioRing.SlotsDiffer | native/src/game_audio.rs:254-258 | No two places of the queue share a slot. |
| Resampler.NoDrift | native/src/game_audio.rs:284-290 | After any sequence of blocks, the frames produced are all input frames times the output rate divided by the source rate, rounded down once. |
| Resampler.RemainderCarries | native/src/game_audio.rs:284-290 | The carried remainder is always smaller than the source rate and balances the books. |
| Resampler.IndicesInRange | native/src/game_audio.rs:295-309 | Every index that is read lies inside the block, the first is 0, and they never go back. |
| Resampler.PositionsSpanBlock | native/src/game_audio.rs:295-309 | The positions start at the first frame, never pass the last and end less than one position unit per output sample before it. |
| Resampler.SamplesStayInside | native/src/game_audio.rs:297-309 | Every output sample lies between the two neighbours it interpolates, so the conversion to 16 bits is exact. |
| Resampler.MixNeverClips | native/src/game_audio.rs:90-92 | Mixing and gain stay in the sample range, so the clamp never cuts. |
| Resampler.RunStaysInside | native/src/game_audio.rs:264-314 | All that is queued over a run is in the sample range. |
| Resampler.StartsWithFirst | native/src/game_audio.rs:291-309 | A block begins with its own first sample. |
| Resampler.Player.WriteStereo | native/src/game_audio.rs:264-314 | Mixing, resampling and queueing a block does to the ring and the remainder what the block function says. |
| Resampler.Interpolated | native/src/game_audio.rs:291-310 | The loop with its running position computes the resampling function. |
| OplBatches.CallbacksRunBetweenBatches | native/doom/opl_retrodeck.c:404-527 | Over every run in which a batch is begun on a paused clock only with the first callback more than 254 clock steps away and nothing is scheduled inside the batch in hand: whenever a music callback runs, every chip frame generated so far has been consumed. |
| OplBatches.RoundedClockIsEarly | native/doom/opl_retrodeck.c:455-466 | Frames before the one a callback falls into end before it on the rounded clock too: k < ceil(d * rate / 10^6) implies k * floor(10^6 / rate) < d. |
| OplBatches.ScheduleInsideBatchOverruns | native/doom/opl_retrodeck.c:350-360 | The condition on scheduling is exact: in every state, otherwise some callback runs while a frame generated before it is still to be heard, when the game gives back its locks and lets the clock run. |
| OplBatches.PausedBatchOverruns | native/doom/opl_retrodeck.c:440-482 | The condition on pausing is exact: in every state, a batch begun on a paused clock with the first callback no further away overruns it, when the game lets the clock run after the first frame. |
| OplBatches.PausedBatchHolds | native/doom/opl_retrodeck.c:440-482 | After the first frame of a batch begun on a paused clock, the clock cannot reach a callback inside the batch exactly when the first callback is more than 254 steps away. |
| OplBatches.RefillHolds | native/doom/opl_retrodeck.c:440-482 | A batch begun on a running clock stops before the first callback; a callback already due runs first and the batch is one frame. |
| OplBatches.FrameIsPunctual | native/doom/opl_retrodeck.c:404-430 | When nothing is overdue before a frame, every callback it runs is due within that frame, and nothing is overdue afterwards unless callbacks were locked out. |
| OplBatches.ClockIsExactWhenRateDivides | native/doom/opl_retrodeck.c:404-411 | The clock never runs fast, and runs true exactly when the rate divides a second. |
| OplClock.FrameIsValid | native/doom/opl_retrodeck.c:484-527 | Each frame keeps the queue sorted, the batch within 256 frames and moves the clock by one step. |
| OplClock.InsertSorts | native/doom/opl_retrodeck.c:350-360 | Scheduling keeps the queue in order of due time. |
| OplDriver.Driver.AdvanceTime | native/doom/opl_retrodeck.c:404-430 | The loop over due callbacks, which may schedule, clear, lock and pause, computes the advance function. |
| OplDriver.Driver.RefillChipBatch | native/doom/opl_retrodeck.c:440-482 | The batch computes the refill function, is at least one frame and holds the next piece of the chip's stream. |
| OplDriver.Driver.NextChipFrame | native/doom/opl_retrodeck.c:484-527 | One frame is taken from the stream, clamped, and the clock moves by it. |
| OplDriver.Driver.Generate | native/doom/opl_retrodeck.c:532-572 | Over any split into calls, output frame j of the whole run is the chip's stream at j steps, interpolated between the frames around it; the whole buffer is written, and the clock has moved by exactly the frames pulled. |
| OplDriver.MixStaysBetween | native/doom/opl_retrodeck.c:558-568 | Interpolation stays between its two frames. |
| OplDriver.SameRateIsStraightCopy | native/doom/opl_retrodeck.c:546-571 | At the mixer's own rate the output is the chip's stream one frame late. |
| OggPlayer.Player.Decode | native/src/chiptune.rs:179-242 | Whatever pieces the library hands out and however links change between mono and stereo: the valid frames of the block followed by what is still to come are what was to come before; a block that does not end is 735 frames, an ending block is followed by silence; it fails exactly when the stream cannot be played that far. |
| OggPlayer.Player.Rewind | native/src/chiptune.rs:244-251 | After a rewind the whole stream is to come, with nothing carried; a failed rewind changes nothing. |
| OggPlayer.PieceOfStream | native/src/chiptune.rs:196-243 | A piece of whole frames is the next part of the stream. |
| ChiptuneSession.DecodeTrack | native/src/chiptune.rs:179-242 | Decoding to the end, or to where the stream breaks off, gives exactly the stream cut into blocks. |
| ChiptuneSession.BlocksAreTheStream | native/src/chiptune.rs:179-242 | The blocks of a track are its frames in order, with less than one block of silence behind them. |
| ChiptuneSession.Session.Generate | native/src/chiptune_ui/mod.rs:474-515 | While the sound device works, what was done and what is due together never change: each block is queued once and in order under any pattern of busy answers, the next track begins only after the last block is queued, and a free queue always gets something done. Without a device exactly the block that is offered is dropped, at the pace of the block clock; a turn with nothing to offer changes nothing. |
| ChiptuneSession.Session.Flush | native/src/chiptune_ui/mod.rs:455-472 | A busy queue leaves the block waiting; a failing one makes the player silent; otherwise nothing waits. |
| ChiptuneSession.Session.Advance | native/src/chiptune_ui/mod.rs:181-215 | The next track opens, or playback fails; what is due stays due. |
| ChiptuneSession.Play | native/src/chiptune_ui/mod.rs:617-655 | Over the open file and the ones after it, decoded as they are played from any pieces the library hands out: after any run of turns and pauses, what was done is a beginning of what the cut streams ask for and the rest is still due. |
| ChiptuneSession.FileIsHeard | native/src/chiptune_ui/mod.rs:474-515 | What a playable file asks for is its whole stream in order, with less than one block of silence behind it, and then the next track. |
| ChiptuneSession.BrokenBlocksBegin | native/src/chiptune.rs:179-242 | The blocks of a stream that breaks off are a beginning of it, and less than one block is missing. |
| ChiptuneSession.TrackThenAdvance | native/src/chiptune_ui/mod.rs:474-515 | What a track asks for is all of its blocks and then the advance. |
| ChiptuneOrder.EveryFileOnce | native/src/chiptune_ui/mod.rs:265-275 | Every file is tried once, and the current file last, in both directions. |
| ChiptuneOrder.StepAndBack | native/src/chiptune_ui/mod.rs:265-275 | One step forward and one back return to the file. |
| ChiptuneOrder.EveryOtherFileOnce | native/src/chiptune_ui/mod.rs:286-296 | Shuffle tries every other file exactly once and never the current one. |
| UploaderStorage.Uploader.AddRom | native/src/uploader/mod.rs:791-875 | For every request, content of the catalogs and behaviour of the disk: success, the first failing check and the way storing fails are exactly determined; no file is overwritten; every disk state on the way, and everything a power loss could leave of it, is safe; on failure the catalog is unchanged and the file is gone again unless its removal failed; on success exactly the validated bytes are added under the new name, the sorted catalog has the new row, ids and paths stay distinct, the total stays at most 64, and each directory is reported durable exactly when its sync succeeded, and then is. |
| UploaderStorage.Uploader.InstallRom | native/src/uploader/mod.rs:525-568 | A file is linked only under a name nothing has; after a successful sync no power loss takes it away. |
| UploaderStorage.Uploader.InstallCatalog | native/src/uploader/mod.rs:525-568 | The new catalog replaces the old one at once; after a successful sync no power loss brings the old one back. |
| UploaderStorage.Uploader.RollBack | native/src/uploader/mod.rs:858-869 | The uncataloged file goes again; done means gone even after a power loss. |
| UploaderStorage.DistinctWithNew | native/src/uploader/mod.rs:827-836 | A row that shares no id or path keeps all rows distinct wherever it is sorted to. |
| UploaderStorage.NewEntryIsClean | native/src/uploader/mod.rs:814-849 | The row of any accepted request can be written and read back. |
| UploaderStorage.DecodedIsRom | native/src/uploader/mod.rs:673-735 | Whatever is accepted, directly or from an archive, passed the check of its system. |
| Publication.SoundIsVisibleSafe | native/src/uploader/mod.rs:791-875 | In a sound state every row a dashboard could read names a file that is there and valid. |
| Publication.SoundIsLossSafe | native/src/uploader/mod.rs:791-875 | After a power loss too, every row that could be read names a valid file, or a file that is gone because its appearance was not synced. |
| Publication.LinkIsSound | native/src/uploader/mod.rs:549-557 | Linking a checked file under a free name keeps the state sound. |
| Publication.UnlinkIsSound | native/src/uploader/mod.rs:858-861 | Removing a file that no row names keeps the state sound. |
| Publication.ReplaceIsSound | native/src/uploader/mod.rs:547-548 | Renaming in a catalog that keeps all old rows and whose files are there keeps the state sound. |
| Publication.SyncRomsIsSound | native/src/uploader/mod.rs:519-521 | Syncing the directory of a system's files keeps the state sound. |
| Publication.SyncCatalogIsSound | native/src/uploader/mod.rs:519-521 | Syncing the catalog's directory keeps the state sound. |
| Publication.LostExactlyWhenUnsynced | native/src/uploader/mod.rs:838-842 | In every sound state a power loss can leave a row without its file exactly when the absence of the file was not synced away and a catalog that lists the row may be found. |
| Publication.UnsyncedRomMayBeLost | native/src/uploader/mod.rs:838-842 | And it happens: such a state is reached by one upload. |
| UploadRows.CatalogRoundTrip | native/src/uploader/mod.rs:760-781 | A written catalog is read back as the rows written, exactly when it keeps the limits on bytes, lines and rows. |
| UploadRows.ReadCatalog | native/src/uploader/mod.rs:760-781 | The loop over lines computes the reading function. |
| UploadRows.SlugIsClean | native/src/uploader/mod.rs:745-758 | A slug is at most 32 letters, digits and single inner hyphens, and is empty exactly when the title has no letter or digit. |
| UploadRows.Slugify | native/src/uploader/mod.rs:745-758 | The loop computes the slug function. |
| UploadRows.IdentifierIsWhole | native/src/uploader/mod.rs:814-819 | No identifier of a supported system is cut off. |
| UploadRows.SortHolds | native/src/uploader/mod.rs:850 | Sorting gives the rows in order of system and title, and the same rows. |
| RomFormats.TapAcceptsExactlyTapes | native/src/uploader/mod.rs:618-637 | A tape is accepted exactly when it is one or more length-prefixed blocks of at least two bytes whose bytes cancel out. |
| RomFormats.TapeIsUnique | native/src/uploader/mod.rs:618-637 | The bytes of a tape have one reading only. |
| RomFormats.TapeIsRead | native/src/uploader/mod.rs:618-637 | Reading blocks undoes writing a tape. |
| RomFormats.ReadTapeWasWritten | native/src/uploader/mod.rs:618-637 | Whatever is read as blocks is the tape of those blocks. |
| RomFormats.CheckTap | native/src/uploader/mod.rs:618-637 | The loop with its moving offset gives the verdict, and the right reason for a refusal. |
| NesSram.DecodesExactlyEncodings | native/src/nes_sram.rs:8-40 | Decoding gives an output exactly when the bytes after the tag begin with literals and runs that expand to it. |
| NesSram.Decode | native/src/nes_sram.rs:8-40 | The loop fills the output with the decoded bytes, or leaves it untouched and says so. |
| NesSram.EncodedIsDecoded | native/src/nes_sram.rs:4-40 | Decoding undoes a run-length encoder for every data and tag, within the size callers allow for. |
| NesSram.TokensAreRead | native/src/nes_sram.rs:16-37 | Reading tokens undoes writing them, whatever follows. |
| NesSram.MaximumIsReached | native/src/nes_sram.rs:4-6 | The size allowed for is reached. |
| WidgetProtocol.Widget.PresentFrame | native/src/wayland.rs:561-590 | A frame is drawn into a buffer the compositor does not hold, and committed only while the widget is shown and, when only prepared, for the first time; all held buffers stay busy exactly when no flush failed. After a failed flush the drawn buffer counts as free, and the next call draws into it. |
| WidgetProtocol.Run | native/src/wayland.rs:561-590 | Over every run in which no flush fails, for all events, releases and sizes: every buffer the compositor holds is busy, and the record of frames is proper. |
| WidgetProtocol.PresentAgain | native/src/wayland.rs:583-586 | After a failed flush the next call, while configured, commits a buffer that the compositor still holds; that is a frame too many exactly when the widget is only prepared. |
| WidgetProtocol.TwoFramesWhilePrepared | native/src/wayland.rs:583-586 | A run that commits two frames while only prepared. |
| WidgetProtocol.OneFramePerPreparation | native/src/wayland.rs:155-175 | Between an announcement that the widget is prepared and the next announcement at most one frame is committed. |
| WidgetProtocol.NoFrameWhileHidden | native/src/wayland.rs:137-139 | No frame is committed after an announcement that the widget is hidden, nor before any announcement. |
| WidgetProtocol.Widget.WidgetEvent | native/src/wayland.rs:140-180 | The flags follow the announcements: any lifecycle announcement that shows the widget allows one frame, and only a completed configuration decides whether the size is usable. |
| WidgetProtocol.Widget.HandleFirst | native/src/wayland.rs:859-874 | Handling an event, a released buffer included, keeps every held buffer busy. |
| WidgetProtocol.Widget.Dispatch | native/src/wayland.rs:301-311 | Handling any number of events that arrived commits nothing. |
| WidgetProtocol.Widget.EnsureSlots | native/src/wayland.rs:490-534 | Buffers are replaced only when none is in use, with every error exactly determined; afterwards there are three of the surface's byte size, and they have another width and height than the surface exactly when buffers of that byte size were there before. |
| WidgetProtocol.Widget.FirstFree | native/src/wayland.rs:570-572 | The first buffer that is not busy. |
| Joypad.ScanKeepsConnected | native/src/joypad.rs:354-390 | A scan never moves a connected player. |
| Joypad.ScanKeepsPortsApart | native/src/joypad.rs:322-392 | No device goes to two players, and no port is remembered twice. |
| Joypad.RememberedPortReturns | native/src/joypad.rs:355-368 | A controller found in the port a player remembers goes to that player. |
| Joypad.ScanConnectsAll | native/src/joypad.rs:354-390 | The connected players afterwards are as many as there are controllers for. |
| Joypad.OrderDoesNotMatter | native/src/joypad.rs:348-354 | The order in which the directory lists the devices does not matter. |
| Joypad.PortsStayApart | native/src/joypad.rs:260-392 | In no run of scans and disconnects do two players remember the same port. |
| Joypad.UnplugAndReplug | native/src/joypad.rs:260-270 | A player whose controller is unplugged and plugged into the same port again is that player again. |
| Joypad.Controllers.ScanGamepads | native/src/joypad.rs:322-392 | The three passes over the array compute the scan function. |
| Joypad.Controllers.Disconnect | native/src/joypad.rs:260-270 | The device goes, the port is remembered. |
| ProcessSupervision.Supervise | native/src/process.rs:438-530 | Without a wait error: at most one TERM, no KILL before the grace has passed since it; after a request to stop the group is gone or was sent KILL after the grace; touch and shutdown are never both reported, and exactly which one is. |
| ProcessSupervision.FinishStoppedGroup | native/src/process.rs:567-586 | What is left of the group when the grace is over is killed; a shutdown request meanwhile is noticed. |
| ProcessSupervision.RunHelper | native/src/process.rs:297-390 | A helper is complete exactly when every byte of its input was written and it exited in time; unless it exited, its whole group is killed. |
| ProcessSupervision.FedMeansAll | native/src/process.rs:329-346 | However writing is split and interrupted, a helper fed without an error got all its input. |
| Settings.BrightnessRoundTripsExactly | native/src/dashboard/settings.rs:196-210 | All ten percentages survive being set and observed exactly on backlights with ten steps or at least twelve. |
| Settings.FineBacklightRoundTrips | native/src/dashboard/settings.rs:196-210 | On a backlight with at least twelve steps every valid percentage does. |
| Settings.CoarseBacklightMisreads | native/src/dashboard/settings.rs:196-210 | On every other backlight but the one with ten steps some valid percentage does not. |
| Settings.VolumeRoundTrip | native/src/dashboard/settings.rs:156-177 | A volume text is accepted as a volume exactly when it is what would be written for it. |
| Settings.BrightnessTextRoundTrip | native/src/dashboard/settings.rs:181-195 | The same for a brightness text. |

## Left out

- Drawing: menus, settings pages, credits, fonts, the player's screen and the exit hint, which the two video paths draw differently.
- Hit testing: which target a touch falls on is given with the touch; the geometry of menus and keyboards is not part of this model.
- Status messages of the dashboard are values of a type, not texts; the terminal title and the child's status text are not modelled.
- `collect_actions` and the translation of device events and key codes, axes and keyboards of `native/src/joypad.rs`.
- Device input and output, ioctl calls, memory maps, the console and its keyboard mode: only their outcomes, as parameters.
- HTTP, HTML, sessions, passwords and the login limiter of the uploader, and the restart after an upload.
- `native/src/projection.rs`: its substance is floating-point arithmetic.
- The environment of a launched program (`launch_plan`) beyond what the dashboard protocol depends on.
- Bytes that are not valid UTF-8: texts are sequences of characters, and a length in bytes is their number.
- UploadRows.SlugIsClean: it is stated of the lower-cased title, because lower-casing by the Unicode tables is a parameter.
- UploaderStorage.Uploader.AddRom: the archive decoder is a parameter (the one file in the archive, if there is one); the row of an upload may push the catalog over its byte limit, in which case later uploads are refused, as in the source.
- UploaderStorage.Uploader.constructor: the data root is taken to hold no tab or line break.
- Temporary files of an installation: their names are taken to be fresh and nothing reads them, so only failing before publication is modelled.
- `compile_catalog` and its renames in `native/src/catalog.rs:481-503`: the printers are modelled, the files are not.
- AudioRing.Ring.Take: the bytes of a chunk and the blocking device write are not modelled, only whether it fails.
- The volume from the environment, the negotiated device rate and the correction to 47328 Hz in `native/src/game_audio.rs:58-88`.
- OplClock.RunDue: music callbacks are a finite script of requests to the driver; a callback that reschedules itself for now without end is not modelled.
- OplClock.Insert: `opl_queue.c` is not part of this model; callbacks due at the same time run in the order they were scheduled, and `AdjustCallbacks` is left out.
- OplDriver.Mix: products are mathematical integers, without the 32-bit width of `native/doom/opl_retrodeck.c:560-568`.
- OplDriver.Driver.RefillChipBatch: the chip is a stream of stereo frames; register writes, timers and the OPL2 and OPL3 layouts of a batch are not modelled.
- OggPlayer.Piece: the library is taken to hand out whole frames while it has any, and never an empty piece before the end.
- ChiptuneSession.Session.Advance: which track comes next is a parameter; the shuffle generator, metadata, positions and volume changes are left out.
- The directory scan, covers and formatting of the chiptune player.
- WidgetProtocol.Widget: touches, the configure timeout and the drawing itself; a frame is a buffer index.
- Joypad: button and axis state, and the published masks; devices are their path and port.
- ProcessSupervision.Supervise: what polling, waiting and the clock answer is a finite list; hold detection, the console mirror and terminal restoration are left out.
- Settings: backlight files, inherited volume and keymaps.
- Integer widths of the Rust sources where their ranges exclude overflow: counters and positions are mathematical integers.
