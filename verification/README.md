# Ruuvi Gateway firmware: verified models of its stateful algorithms

A Dafny project beside the ESP32 firmware of the Ruuvi Gateway. Each part has a specification (states as values, one
function per operation), theorems about all runs of it, and a class whose methods work in place as the firmware does
and are proved to do what the specification says. `dafny verify dfyconfig.toml` checks everything.

- **Advertisement table** (`AdvReport`, `AdvTableModel`, `AdvTableInvariant`, `AdvTableCache`, `AdvTableDelivery`,
  `AdvTableCapacity`, `AdvTableQueries`, `AdvTable`). 100 cells shared by a hash index, an LRU history and three
  retransmission queues. It is an LRU cache that agrees with a plain map; queues that are read as a whole deliver each
  report once, and beyond capacity the most recent ones; the early breaks of the reads are complete. The prefix property
  that makes this work holds for queues 1 and 2 in every run. For the MQTT queue it holds only without reads from its
  head, and the exact condition is proved. Found: with such reads a report that nobody has read can be overwritten
  although the queue is not full; when exactly is proved, and a run from the start in which it happens.
- **Boot selection and image writer** (`OtaSeq`, `OtaData`, `OtaSwitch`, `OtaLife`, `OtaPartition`, `OtaStream`,
  `OtaWriterModel`, `OtaWriter`). The record of two entries, the bootloader's rules for it, power cuts wherever an entry
  is erased and written, and whole lives of a device; the 16-byte cache in front of encrypted flash. With the two slots
  of this gateway's partition table the 32-bit arithmetic of the O(1) formula is exact up to the last usable number;
  with a larger partition table the intermediate sum can overflow before the result does. Found: the value of the
  padding bytes depends on how the image was cut.
- **nRF52 command link** (`NrfLinkModel`, `NrfLinkSafety`, `NrfLinkFresh`, `NrfLinkLed`, `NrfLink`). Every interleaving
  of signals, timers and acknowledgements. No assertion on sending can fail as long as the LED value that stands for none
  is only set while an acknowledgement is awaited, and work is never forgotten unless manual reset mode is on. Found: new
  settings, or a new LED value, that come while an acknowledgement is outstanding can be taken for acknowledged without
  being sent; the exact steps are proved, and runs from the start in which an update or an LED value is lost for good.
- **Firmware update** (`FwDownloadModel`, `FwDownload`, `FwUpdateModel`, `FwUpdateTrace`, `FwUpdateFetch`,
  `FwUpdateSafety`, `FwUpdateContents`, `FwUpdateLife`, `FwUpdate`). Resumable downloads, the image writer, all flash
  operations with their failures, and the all-or-nothing switch, up to what each partition holds byte by byte, and lives
  of a device made of such runs. Found: bodies of redirects count as downloaded, so a resumed request can start too far
  and still end in success; and an update attempted by an unconfirmed image, which every image is after its first start,
  invalidates the data partitions of the image that the device then rolls back to, unless both erases fail.
- **Relaying** (`AsyncCommModel`, `AsyncCommSafety`, `AsyncComm`). Ownership of the HTTP server's lock around
  asynchronous transfers, and conservation of the reports of an MQTT batch. Ownership breaks in exactly one step: relaying
  suspended during a batch. Both failures that are proved have a run from the start that reaches them.
- **Configuration** (`CfgJson`, `CfgAuth`, `CfgHttp`, `CfgRemote`, `CfgMqtt`, `CfgLan`, `CfgNtp`, `CfgScan`, `CfgUpdate`,
  `CfgModel`, `CfgGenerate`, `CfgParse`, `CfgStore`). Saving as JSON and loading over defaults is idempotent for all
  configurations and all defaults, and a configuration survives exactly under a condition stated part by part.
- **Response buffers** (`HttpBuffers`). The JSON download and the answer to a POST, for any cut of the body into pieces.

`Lists` holds what is needed about sequences, `Numbers` the unsigned 32-bit arithmetic.

Where the code and its comments differ, the models follow the code. Comments promise that an old `scan_extended_payload`
is converted; the code does so only over a configuration that is not called default. Saved configurations are loaded
over the default one, so with the hard-coded defaults it is never converted.

## Model

| member | source | states |
|---|---|---|
| `AdvTable.BucketSearchIsScan` | main/adv_table.c:111-127 | searching the bucket of a MAC finds exactly what a scan of all cells finds |
| `AdvTable.AdvTable.constructor` | main/adv_table.c:55-81 | the initial table: all cells free, in array order, every index and queue empty, and the invariant holds |
| `AdvTable.AdvTable.HashTableSearch` | main/adv_table.c:111-127 | the search returns the one hashed cell with the MAC, or nothing if no cell has it |
| `AdvTable.AdvTable.HashTableAdd` | main/adv_table.c:129-138 | afterwards the cell is in the bucket of its own MAC and only there; no other cell changes |
| `AdvTable.AdvTable.HashTableRemove` | main/adv_table.c:140-152 | afterwards the cell is in no bucket; no other cell changes |
| `AdvTable.AdvTable.Enlist` | main/adv_table.c:207-223 | a cell joins a queue at its end unless its flag says that it is there already |
| `AdvTable.AdvTable.Touch` | main/adv_table.c:207-226 | after an accepted report its cell is in all three queues, once each, and at the front of the history |
| `AdvTable.AdvTable.Replace` | main/adv_table.c:180-193 | a new MAC takes over the least recently accepted cell, which leaves its old bucket |
| `AdvTable.AdvTable.Update` | main/adv_table.c:194-206 | a known MAC: the sample is counted, and the report taken over unless it must be discarded |
| `AdvTable.AdvTable.Store` | main/adv_table.c:179-206 | both cases of storing a report, with the counter it ends with |
| `AdvTable.AdvTable.Put` | main/adv_table.c:176-236 | a put in place has the effect that the theorems are about, tells whether the report was accepted, and keeps every hashed cell in the bucket of its own MAC and in no other |
| `AdvTable.AdvTable.Dequeue` | main/adv_table.c:245-258 | the first cell leaves the queue and its flag is cleared |
| `AdvTable.AdvTable.ReadRetransmissionList` | main/adv_table.c:239-327 | a read returns all pending reports in queue order, empties the queue, and never reaches the branch that drops a report |
| `AdvTable.AdvTable.ReadMqttHead` | main/adv_table.c:329-350 | the head of the MQTT queue is returned and taken off; nothing if the queue is empty |
| `AdvTable.AdvTable.IsMqttListEmpty` | main/adv_table.c:352-359 | the answer is true exactly if no report waits for MQTT |
| `AdvTable.AdvTable.ReadHistory` | main/adv_table.c:361-413 | the loop returns the reports before the first unwanted one, in history order |
| `AdvTable.AdvTable.ReadStatistics` | main/adv_table.c:415-443 | the loop returns the reports before the first one without a timestamp, and resets the counters of exactly those |
| `AdvTable.AdvTable.Clear` | main/adv_table.c:490-507 | all queues are emptied and every cell is marked free; hash index and history order stay |
| `AdvTableInvariant.InitHasInv` | main/adv_table.c:55-81 | the freshly initialised table meets the invariant |
| `AdvTableInvariant.PutKeepsInv` | main/adv_table.c:176-228 | a put keeps it: history is a permutation of all cells, no MAC is stored twice, unused cells come last, each flag matches membership in its queue, and the pending cells of queues 1 and 2 are a prefix of the history |
| `AdvTableInvariant.ReadQueueKeepsInv` | main/adv_table.c:239-303 | a read of any queue keeps the invariant |
| `AdvTableInvariant.PopMqttKeepsInv` | main/adv_table.c:329-342 | taking one report off the MQTT queue keeps the invariant |
| `AdvTableInvariant.ClearKeepsInv` | main/adv_table.c:490-507 | clearing keeps the invariant |
| `AdvTableInvariant.Run` | main/adv_table.c:55-507 | every table that any run of operations can reach meets the invariant |
| `AdvTableInvariant.QueueFits` | main/adv_table.c:247-252 | no queue ever holds more reports than the output table, so the drop at capacity cannot happen |
| `AdvTableCache.LruOverRuns` | main/adv_table.c:176-228 | over any run the history list is the list of MACs by recency of acceptance |
| `AdvTableCache.TableHoldsMostRecentMacs` | main/adv_table.c:176-228 | the table knows a MAC if and only if it is among the 100 most recently accepted ones |
| `AdvTableCache.LookupAgreesWithPlainMap` | main/adv_table.c:111-228 | lookup agrees with a plain map from MAC to last accepted report, cut to the 100 most recent MACs |
| `AdvTableCache.CountersCountPuts` | main/adv_table.c:176-206 | while a MAC stays in the table its sample counter is the number of puts since insertion, clear or last statistics read, modulo 2^32 |
| `AdvTableCache.StatisticsKeepsCounters` | main/adv_table.c:415-435 | a statistics read resets the counts of the MACs it returns and of no others |
| `AdvTableDelivery.NewMacOverwritesUnreadIffAllPending` | main/adv_table.c:180-223 | for a queue that is only read as a whole: a report with a new MAC overwrites one that the queue still owes if and only if all 100 cells are pending in it |
| `AdvTableDelivery.MqttPendingPrefixWithoutPops` | main/adv_table.c:283-303 | the prefix property also holds for the MQTT queue in runs that never take its reports one at a time |
| `AdvTableDelivery.PopKeepsPendingPrefixIff` | main/adv_table.c:329-342 | taking one report off the MQTT queue keeps the prefix property exactly if it takes the least recently accepted pending cell |
| `AdvTableDelivery.MqttPendingPrefixCanFail` | main/adv_table.c:329-342 | a run of three puts and one such read breaks it, for any two MACs |
| `AdvTableDelivery.DeliveryOverRuns` | main/adv_table.c:176-281 | over any run a queue that is only read as a whole, as the HTTP queues always are and the MQTT queue is when it is sent periodically, owes exactly the accepted reports since its last read or clear |
| `AdvTableDelivery.ReadDeliversEachMacOnce` | main/adv_table.c:239-281 | with at most 100 distinct MACs accepted since the last read or clear, a read returns each once, with its last accepted report, in order of first acceptance |
| `AdvTableDelivery.NothingLostIffWithinCapacity` | main/adv_table.c:239-281 | a read returns every accepted MAC if and only if there were at most 100 |
| `AdvTableCapacity.ReadBeyondCapacity` | main/adv_table.c:239-281 | after more than that a read returns exactly the 100 most recently accepted MACs, each with its latest accepted report |
| `AdvTableCapacity.OverwritesDespiteRoomIff` | main/adv_table.c:180-223 | over any run, also with reads from the head: a new MAC overwrites an unread report while fewer than 100 are pending if and only if the least recent MAC of the table waits and a more recent one does not |
| `AdvTableCapacity.UnreadCanBeOverwritten` | main/adv_table.c:176-350 | a run from the start that comes to that, for any 101 MACs: 100 puts, an update of the first, one read from the head of the MQTT queue |
| `AdvTableQueries.StopIsFilterIff` | main/adv_table.c:361-435 | stopping at the first unwanted report equals the full filter if and only if the wanted reports come first |
| `AdvTableQueries.NewestFirstOverRuns` | main/adv_table.c:176-228 | if reports have data and times do not go back, free cells are a suffix of the history and live ones are sorted newest first |
| `AdvTableQueries.HistoryReadIsFullFilter` | main/adv_table.c:361-400 | then a history read returns exactly the live reports that a full filter would return |
| `AdvTableQueries.StatisticsReadIsFullFilter` | main/adv_table.c:415-435 | then a statistics read returns exactly the reports that have a timestamp |
| `AdvTableQueries.HistoryReadCompleteIff` | main/adv_table.c:372-396 | the history read is complete on all such tables if and only if the counter filter does not exceed 2^31 |
| `OtaSeq.NextSeqIsFirstAbove` | main/esp_ota_ops_patched.c:568-595 | the O(1) formula gives the first number above the current one that maps to the requested slot, at most count further on, without overflow |
| `OtaSeq.NextSeqAdvancesIff` | main/esp_ota_ops_patched.c:568-595 | the exact range in which the new number is usable and above the current one |
| `OtaSeq.SumOverflowExample` | main/esp_ota_ops_patched.c:568-595 | with a larger partition table, of seven slots, the intermediate 32-bit sum overflows although the ideal number still fits |
| `OtaSeq.TwoSlotsNeverOverflow` | main/esp_ota_ops_patched.c:568-595 | with the two slots of this gateway the sum never overflows before the result does, so the new number is usable and above the current one exactly if the ideal number is below 2^32 - 1 |
| `OtaSeq.IdealNextHasSlot` | main/esp_ota_ops_patched.c:568-595 | the number found by linear search maps back to the requested slot |
| `OtaSeq.FirstAboveClosedForm` | main/esp_ota_ops_patched.c:577-588 | the linear search and the closed form agree for all inputs |
| `OtaData.Active` | components/bootloader_support/src/bootloader_common.c:195-230 | of the usable entries the one with the higher number counts, the first on a tie; none exactly if none is usable |
| `OtaData.FindForSlot` | main/esp_ota_ops_patched.c:467-490 | the first usable entry for the slot; none exactly if no usable entry stands for it |
| `OtaData.Preserved` | main/esp_ota_ops_patched.c:528-566 | the preserved entry describes the running image if any usable one does, and is the active one otherwise; there is none only if no entry is usable |
| `OtaData.Load` | components/bootloader_support/src/bootloader_utility.c:461-512 | the bootloader loads the nearest bootable slot from the chosen one downwards, otherwise the first one above, and nothing exactly if no slot is bootable |
| `OtaSwitch.SwitchSelectsTargetIff` | main/esp_ota_ops_patched.c:528-595 | after a switch the bootloader picks the new entry, for the requested slot, if and only if the sequence numbers have room |
| `OtaSwitch.TwoSlotsSelectIff` | main/esp_ota_ops_patched.c:528-595 | with two slots the condition is on the number alone: one or two more than the preserved number, by its parity, must be below 2^32 - 1 |
| `OtaSwitch.SwitchFromNothing` | main/esp_ota_ops_patched.c:596-604 | with both entries unusable the switch always selects the requested slot |
| `OtaSwitch.SwitchPreserves` | main/esp_ota_ops_patched.c:528-595 | the other entry is untouched, usable if any was, and describes the running image if any usable one did |
| `OtaSwitch.PowerCutKeepsPreserved` | main/esp_ota_ops_patched.c:428-450 | a power cut between erase and write leaves the preserved entry selected |
| `OtaSwitch.SetBootKeepsPreserved` | main/esp_ota_ops_patched.c:606-667 | however setting the boot partition ends, the preserved entry is untouched; the record is switched exactly on success, and otherwise it is the old one or lacks only the replaced entry |
| `OtaSwitch.StateAfterSwitch` | main/esp_ota_ops_patched.c:683-765 | the state read back for the requested slot after a switch |
| `OtaSwitch.UpdatesOverRuns` | main/esp_ota_ops_patched.c:528-604 | over any run of updates each new number exceeds the preserved one, and the entry of the image that was running survives |
| `OtaLife.NewImageStarts` | components/bootloader_support/src/bootloader_utility.c:305-396 | the first boot after a switch starts the requested slot and marks it as waiting for confirmation |
| `OtaLife.UnconfirmedImageRollsBack` | components/bootloader_support/src/bootloader_utility.c:305-396 | without confirmation the next boot gives the image up and starts the preserved one |
| `OtaLife.PendingPreservedIsLost` | main/esp_ota_ops_patched.c:191-199 | why an unconfirmed image must not start an update: afterwards no entry would be usable |
| `OtaLife.DeviceRunsLastConfirmed` | main/esp_ota_ops_patched.c:528-604 | over any life of updates, confirmations, damaged images, reboots, and power cuts in the switch, in the entry rewrites of the bootloader and in the confirmation, the device runs the last confirmed image |
| `OtaLife.InitialBecomesStable` | components/bootloader_support/src/bootloader_utility.c:416-437 | with a record that has no contents the bootloader loads the first bootable slot and settles the record on it, and a power cut in that changes nothing |
| `OtaLife.LifeFromFirstStart` | components/bootloader_support/src/bootloader_utility.c:305-512 | the same over a whole life from the first start with a blank record |
| `OtaPartition.OtaPartition.RewriteOtaSeq` | main/esp_ota_ops_patched.c:408-451 | the entry is erased and rewritten with number, state and checksum; a failure leaves what the failed step left |
| `OtaPartition.OtaPartition.ChoosePreserved` | main/esp_ota_ops_patched.c:528-566 | the steps choose the entry that the specification preserves |
| `OtaPartition.OtaPartition.RewriteOtaData` | main/esp_ota_ops_patched.c:492-604 | the record ends switched, unchanged, or with only the replaced entry erased; and the error cases |
| `OtaPartition.OtaPartition.SetBootPartition` | main/esp_ota_ops_patched.c:606-667 | answer and record for every kind of partition and every failure; refused kinds, unverified images and a missing record change nothing |
| `OtaPartition.OtaPartition.GetStatePartition` | main/esp_ota_ops_patched.c:683-765 | the loop over both entries returns the first state with a good checksum, or which error |
| `OtaStream.CompletedIffCutInside` | main/esp_ota_ops_patched.c:243-281 | the cache is flushed if and only if some cut falls inside a block that is filled later |
| `OtaStream.CutsDifferOnlyInPadding` | main/esp_ota_ops_patched.c:230-293 | two ways of cutting one image leave the same flash contents except for the value of the padding, and the exact condition for that |
| `OtaStream.CutCanShow` | main/esp_ota_ops_patched.c:230-293 | every image of more than a block that does not end with a block has two cuts with different flash contents |
| `OtaWriterModel.PlanContinues` | main/esp_ota_ops_patched.c:230-293 | the writes of one call continue where the last ones ended, and flash contents followed by the cached bytes grow by exactly the data |
| `OtaWriterModel.WriterHolds` | main/esp_ota_ops_patched.c:230-293 | for any cut into chunks: contiguous writes of whole blocks, nothing lost between flash and cache, and the cache was flushed exactly if some chunk completed a block |
| `OtaWriterModel.ImageIsWritten` | main/esp_ota_ops_patched.c:230-360 | for any cut the writes, put together, are the image and its padding: 0x00 if the cache was never flushed and 0xFF otherwise, never earlier payload |
| `OtaWriter.OtaWriter.WriteThroughCache` | main/esp_ota_ops_patched.c:248-293 | data behind cached bytes: the cached block is filled up and written, then the whole blocks; a failed write stops it there |
| `OtaWriter.OtaWriter.WriteBlocks` | main/esp_ota_ops_patched.c:273-293 | whole blocks are written and the incomplete one is cached |
| `OtaWriter.OtaWriter.Write` | main/esp_ota_ops_patched.c:230-293 | a wrong first byte is refused; otherwise exactly the planned writes are made, up to the first that fails, for any chunk |
| `OtaWriter.OtaWriter.End` | main/esp_ota_ops_patched.c:318-406 | which result is returned when, and that exactly the padded last block is written |
| `OtaWriter.ReceiveImage` | main/esp_ota_ops_patched.c:230-406 | for any cut into chunks an accepted image leaves flash with the image and its padding; every refusal has its reason, and without a flash failure none is missed |
| `NrfLinkModel.OnCfgUpdate` | main/adv_post_nrf52.c:353-369 | keeps the invariant, so the assertions on sending cannot fail here |
| `NrfLinkModel.OnAckLed` | main/adv_post_nrf52.c:453-466 | keeps the invariant when the LED command is acknowledged and a configuration waits |
| `NrfLinkModel.OnAckCfg` | main/adv_post_nrf52.c:468-485 | keeps the invariant when the configuration is acknowledged and an LED value waits |
| `NrfLinkModel.OnAckTimeout` | main/adv_post_nrf52.c:487-517 | keeps the invariant when an acknowledgement is late: retry, or reset at the tenth time |
| `NrfLinkModel.OnRebooted` | main/adv_post_nrf52.c:316-345 | keeps the invariant when the nRF52 reboots by itself or after a reset |
| `NrfLinkModel.OnAckArrives` | main/adv_post_nrf52.c:398-451 | keeps the invariant whatever acknowledgement arrives, expected or not |
| `NrfLinkModel.Step` | main/adv_post_nrf52.c:136-517 | in every interleaving of signals, timers and acknowledgements: required implies not configured, and a waiting link has its timer or its timeout signal |
| `NrfLinkSafety.StallsOnlyByManualReset` | main/adv_post_nrf52.c:166-219 | the only step that leaves work without an acknowledgement to wait for is sending a configuration in manual reset mode |
| `NrfLinkSafety.PendingWorkIsAlwaysAwaited` | main/adv_post_nrf52.c:136-517 | with manual reset mode off, in every run: pending work means that an acknowledgement is awaited, with its timer or its signal on the way, and the other way round unless an LED value is taken back |
| `NrfLinkSafety.PurposefulUnlessTakenBack` | main/adv_post_nrf52.c:300-314 | the only step after which an acknowledgement is awaited without pending work is taking back the LED value that is being sent |
| `NrfLinkSafety.GivingUpResets` | main/adv_post_nrf52.c:221-234 | the tenth timeout puts the nRF52 into reset, with nothing pending and the reset timer running |
| `NrfLinkSafety.SilenceResetsEveryTenthTimeout` | main/adv_post_nrf52.c:487-517 | without acknowledgements there is one reset for every ten timeouts, whatever else happens |
| `NrfLinkFresh.FreshUnlessOvertaken` | main/adv_post_nrf52.c:468-485 | the exact step that breaks freshness: new settings cached while an acknowledgement of others is outstanding |
| `NrfLinkFresh.ConfiguredMeansSent` | main/adv_post_nrf52.c:166-219 | in runs without such a step, whenever the nRF52 is marked configured it was last sent the cached settings |
| `NrfLinkFresh.OvertakingCanMislead` | main/adv_post_nrf52.c:468-485 | after any such step some continuation marks the nRF52 configured with other settings than the cached ones |
| `NrfLinkFresh.SettledUnlessSwallowed` | main/adv_post_nrf52.c:353-369 | the exact step after which no update signal will repair that |
| `NrfLinkFresh.StaleUntilStartedOver` | main/adv_post_nrf52.c:468-485 | then only new settings or a reboot of the nRF52 get it the cached settings |
| `NrfLinkFresh.UpdateCanBeLostForGood` | main/adv_post_nrf52.c:353-369 | the breaking run, from any state in which settings are being sent |
| `NrfLinkFresh.UpdateCanBeLostFromStart` | main/adv_post_nrf52.c:136-517 | six events from the start that end with the nRF52 marked configured with the first of two updates, and nothing on its way |
| `NrfLinkLed.LedFreshUnlessOvertaken` | main/adv_post_nrf52.c:300-314 | the exact step after which a pending LED value can be given up unsent: it is set while the acknowledgement of another one is outstanding, whether still to come or waiting to be handled |
| `NrfLinkLed.AcknowledgedLedWasSent` | main/adv_post_nrf52.c:453-466 | in runs without such a step the value that an acknowledgement completes is always the one that was sent |
| `NrfLinkLed.OvertakingLosesLed` | main/adv_post_nrf52.c:300-314 | after any such step some continuation gives the value up without ever sending it |
| `NrfLinkLed.LedCanBeLostFromStart` | main/adv_post_nrf52.c:300-314 | a run from the start in which the second of two LED values is given up unsent |
| `NrfLinkLed.PendingLedGivenUpIff` | main/adv_post_nrf52.c:316-517 | all the ways in which a pending LED value disappears: acknowledged, taken back, or dropped by a reboot or reset |
| `NrfLink.NrfLink.HandleSignal` | main/adv_post_signals.c:435-493 | each signal is taken and handled by its own handler; the invariant is kept |
| `NrfLink.NrfLink.HandleEvents` | main/adv_post_nrf52.c:136-517 | any sequence of events in place: pending work stays awaited while manual reset mode is off, a link marked configured was sent its settings, and an acknowledged LED value was sent, each unless its exact breaking step occurs |
| `FwDownloadModel.ChunksEffect` | main/fw_update.c:725-837 | as long as there is no error an attempt appends what came under the expected code, and counts the bodies of redirects as well |
| `FwDownloadModel.ErrorsAreFinal` | main/fw_update.c:753-774 | once there was an error no later attempt can make the download succeed |
| `FwDownloadModel.ResumesAtOffsetIff` | main/fw_update.c:839-927 | with a server that honours ranges: a resumed request starts at the write offset if and only if no redirect had a body, and then the partition holds the beginning of the file |
| `FwDownloadModel.DownloadIsFileIff` | main/fw_update.c:896-927 | a download that reports success wrote the file if and only if no resumed attempt had a redirect with a body; otherwise it lacks as many bytes |
| `FwDownloadModel.SuccessfulDownload` | main/fw_update.c:896-927 | the same from the start of a download |
| `FwDownloadModel.RedirectBodyLosesBytes` | main/fw_update.c:827-827 | for any file: a redirect with a body of one byte and one broken connection end in success without the first byte |
| `FwDownload.DataPartition.Erase` | main/esp_ota_helpers.c:36-77 | the sector loop erases everything, or the first sector only; sizes that are no whole sectors are refused |
| `FwDownload.DataPartition.OnRecvData` | main/fw_update.c:725-837 | the callback drops data after an error, skips redirects, refuses unexpected codes, and otherwise writes at the offset |
| `FwDownload.DataPartition.Receive` | main/fw_update.c:816-837 | one request is the specified sequence of callbacks, all with the same range start |
| `FwDownload.DataPartition.DownloadWithRetries` | main/fw_update.c:839-927 | the loop makes at most five attempts and ends as specified |
| `FwDownload.DataPartition.Update` | main/fw_update.c:929-973 | after erasing, the partition holds the written bytes and nothing else behind them |
| `FwDownload.UpdatedPartitionHoldsFile` | main/fw_update.c:929-973 | a successful update without redirect bodies leaves the file followed by erased flash |
| `FwUpdateFetch.FetchIsDownload` | main/fw_update.c:839-1062 | the callbacks writing to a partition carry out the download of the protocol, and whether a piece is stored is what the writer and the flash make of it |
| `FwUpdateFetch.WholeFetch` | main/fw_update.c:929-1062 | a whole download touches its partition only; if it succeeds, exactly the writes of the stored pieces were made |
| `FwUpdateSafety.RunStaysInBank` | main/fw_update.c:1486-1727 | every erase and write of a run, whatever fails, lies in one of the three partitions to be updated, or in the replaced sector of the boot record once the switch is reached |
| `FwUpdateSafety.RunLeavesRunningSlotAlone` | partitions.csv:3-12 | with the gateway's partition table none of them touches the partitions of the running slot or the preserved entry of the boot record |
| `FwUpdateSafety.SwitchReachedIff` | main/fw_update.c:1099-1584 | the boot switch is reached if and only if all three downloads succeed, the image verifies under the running key, the nRF52 is flashed and no flash operation fails; and then flash saw each partition erased completely and written with what was stored, the image padded, one after the other |
| `FwUpdateContents.SwitchedRunHoldsFiles` | main/fw_update.c:897-1162 | if the switch is reached each partition holds, byte by byte, what was stored of its download and erased flash behind it; and that is the server's file if and only if no resumed attempt had a redirect with a body |
| `FwUpdateContents.UpdatedSlotHoldsFiles` | main/fw_update.c:897-1727 | after a successful update the new slot holds the three files of the servers, the application as an image with its padding |
| `FwUpdateContents.GatewaySlotHoldsFiles` | partitions.csv:3-12 | the same for the two slots of the gateway's partition table |
| `FwUpdateSafety.FailedRunInvalidates` | main/fw_update.c:1486-1690 | every failed run ends by trying to erase the first sector of each partition it may have written; an unconfirmed image spares the other application |
| `FwUpdateSafety.PendingRunOnlyInvalidates` | main/esp_ota_ops_patched.c:191-199 | a run started while the record says that the running image waits for confirmation does nothing but invalidate, whatever fails |
| `FwUpdateSafety.UnconfirmedRunInvalidatesRollbackData` | main/fw_update.c:1486-1514 | such a run of an unconfirmed image spares the other application, but the data partitions that application needs keep their first sectors if and only if both erases fail |
| `FwUpdateLife.FirstStartIsPending` | components/bootloader_support/src/bootloader_utility.c:365-396 | every update of a settled device leads to such a state: after its first start the new image runs and its entry waits for confirmation |
| `FwUpdateLife.RollbackFindsDataInvalidated` | main/fw_update.c:1486-1514 | an update attempted in that state, and the rollback after it: the device comes back with the earlier image, whose data partitions have lost their first sectors unless the erases failed |
| `FwUpdateSafety.DisagreementErasesRollbackApp` | main/esp_ota_helpers.c:109-117 | if only the record says that the image is unconfirmed, the application to roll back to loses its first sector if and only if the first erase works |
| `FwUpdateSafety.DisagreementKeepsNewApp` | main/esp_ota_helpers.c:109-117 | if only the record says that it is confirmed, a failed run leaves the new application as it was when it failed |
| `FwUpdateSafety.FailedRunErasesHeader` | main/esp_ota_helpers.c:79-130 | a failed run of a confirmed image leaves the application without its first sector if that one erase works |
| `FwUpdateSafety.FailedUpdateBootsRunning` | main/fw_update.c:1630-1727 | after a failed run of a confirmed image, if one erase works, the running image is booted again, whatever the boot record says, also if the run failed within the switch |
| `FwUpdateLife.FailedUpdateOfSettledBootsRunning` | main/fw_update.c:1630-1727 | with a settled boot record the running image is booted again after any failed run, whatever failed in it, confirmed or not |
| `FwUpdateLife.UpdatesKeepLastConfirmed` | main/fw_update.c:1630-1727 | over any life of complete update runs, failed or not, with all fates of a new image, and reboots, the device runs the last confirmed image and the record is settled on it |
| `FwUpdateSafety.SuccessfulUpdateBootsNew` | main/fw_update.c:1630-1727 | a successful run boots the new image |
| `FwUpdate.FwUpdate.EraseWithSleep` | main/esp_ota_helpers.c:36-77 | the sectors are erased once each and in order, until one fails or only the first is asked for |
| `FwUpdate.FwUpdate.DownloadWithRetries` | main/fw_update.c:839-927 | at most five requests, each from the number of bytes received so far; data goes through the writer to flash |
| `FwUpdate.FwUpdate.UpdateOta` | main/fw_update.c:1099-1162 | erase, download, end of image and key check in this order; the end of image also after a failed download |
| `FwUpdate.FwUpdate.UpdateDataPartition` | main/fw_update.c:929-1000 | erase and download of a data partition |
| `FwUpdate.FwUpdate.RunActions` | main/fw_update.c:1516-1584 | the three partitions and the nRF52 in this order, stopping at the first failure |
| `FwUpdate.FwUpdate.InvalidateAllNext` | main/fw_update.c:1406-1514 | the first sectors of all three partitions, the application's only if the running image is confirmed |
| `FwUpdate.FwUpdate.SetBootPartition` | main/esp_ota_ops_patched.c:408-451 | the boot switch with its two flash operations, as specified for the record |
| `FwUpdate.FwUpdate.Task` | main/fw_update.c:1630-1727 | whatever happens the log of flash operations, the boot record and the answer are those that the theorems are about; after a success with well-behaved servers the new slot holds their files |
| `FwUpdate.CompareWlArea` | main/fw_update.c:257-302 | comparing in pieces of 512 bytes finds out whether the end of the partition equals the reference |
| `FwUpdate.RestoreWlArea` | main/fw_update.c:304-372 | afterwards the end of the partition equals the reference and the rest is unchanged; if all of it can be read, exactly the given failures make it fail |
| `AsyncCommSafety.OwnershipKeptIff` | main/adv_post_signals.c:189-205 | lock ownership is kept by every step except suspending relaying during an MQTT batch |
| `AsyncCommSafety.LockBalancedOverRuns` | main/adv_post_async_comm.c:147-408 | in runs without that step the lock is held exactly while an HTTP transfer is in progress, and each successful try-lock has one unlock |
| `AsyncCommSafety.AbortedBatchUnlocksForeignLock` | main/adv_post_signals.c:189-205 | what the excluded step does: an unlock without a lock |
| `AsyncCommSafety.BatchCanBeAborted` | main/adv_post_signals.c:189-205 | a run from the start that leads to such a step, after which the lock was given back once more than it was taken |
| `AsyncCommSafety.ReportsConserved` | main/adv_post_async_comm.c:254-320 | a step moves reports from owed to published, in order, each once, and adds a new batch behind them; unless publishing fails or the batch is aborted |
| `AsyncCommSafety.BatchesPublishedInOrder` | main/adv_post_async_comm.c:254-320 | over runs without such failures everything read for MQTT is published once and in order, an empty batch as one blank report |
| `AsyncCommSafety.RequestDuringTransferIsDropped` | main/adv_post_async_comm.c:331-348 | a request for a transfer that is in progress makes no difference to the round that completes it |
| `AsyncCommSafety.TransferIsAttended` | main/adv_post_async_comm.c:322-408 | a transfer in progress always has another round scheduled |
| `AsyncCommSafety.PromptUnlessResumed` | main/adv_post_async_comm.c:368-408 | a requested transfer is left unscheduled only when relaying is resumed with requests left over |
| `AsyncCommSafety.RequestCanBeForgotten` | main/adv_post_signals.c:189-205 | a run from the start that ends with a request left over and no round scheduled |
| `AsyncComm.AsyncComm.DoAsyncComm` | main/adv_post_async_comm.c:368-408 | a round first continues what is in progress, and starts at most one transfer, in fixed order, when nothing is; afterwards the lock is held exactly if an HTTP transfer is in progress |
| `AsyncComm.AsyncComm.HandleRelayingModeChanged` | main/adv_post_signals.c:189-205 | suspending aborts what is in progress and gives the lock back; ownership is kept unless that is an MQTT batch |
| `AsyncComm.AsyncComm.HandleEvents` | main/adv_post_async_comm.c:147-408 | any sequence of events in place that aborts no batch: the lock is held exactly while an HTTP transfer is in progress, and what was read for MQTT was published in order |
| `CfgJson.Uint32SurvivesIff` | main/cjson_wrap.c:160-194 | a 32-bit number survives saving and loading if and only if it has 16 bits |
| `CfgJson.ReadBasic` | main/gw_cfg.h:195-216 | user and password written into the shared memory read back, cut to their buffers |
| `CfgAuth.RestoredAuthText` | main/gw_cfg_json_parse_http.c:178-276 | credentials of every kind survive saving and loading if and only if they fit |
| `CfgHttp.SavedHttpLoads` | main/gw_cfg_json_parse_http.c:294-337 | what a saved HTTP configuration is loaded as, for all configurations and defaults |
| `CfgHttp.HttpIdempotent` | main/gw_cfg_json_generate.c:350-397 | saving and loading twice equals saving and loading once |
| `CfgHttp.TargetsKeptIff` | main/gw_cfg_json_generate.c:363-397 | which targets receive posts is kept if and only if the configuration is not saved as the default one, or that default has the legacy shape |
| `CfgHttp.HttpSurvivesIff` | main/gw_cfg_cmp.c:102-179 | by the firmware's comparison the HTTP configuration survives exactly under the stated condition |
| `CfgRemote.SavedRemoteLoads` | main/gw_cfg_json_parse_remote.c:71-159 | what a saved remote configuration is loaded as; a change of kind clears old credentials |
| `CfgRemote.RemoteSurvivesIff` | main/gw_cfg_json_generate_remote.c:93-156 | it survives if and only if its credentials fit and are of a kind that is understood when loaded |
| `CfgMqtt.SavedMqttLoads` | main/gw_cfg_json_parse_mqtt.c:59-153 | what saved MQTT settings are loaded as, for all settings and defaults |
| `CfgMqtt.MqttSurvivesIff` | main/gw_cfg_json_parse_mqtt.c:59-153 | they survive if and only if the interval has 16 bits, empty names are the default, and unused flags are the default |
| `CfgLan.SavedLanLoads` | main/gw_cfg_json_parse_lan_auth.c:55-112 | what saved LAN settings are loaded as, for all settings and defaults |
| `CfgLan.LanIdempotent` | main/gw_cfg.c:862-874 | showing default credentials as the default kind, and reading them so, is stable |
| `CfgLan.LanSurvivesIff` | main/gw_cfg_json_parse_lan_auth.c:55-112 | they survive if and only if the kind and the credentials fit together |
| `CfgNtp.SavedNtpLoads` | main/gw_cfg_json_parse_ntp.c:53-75 | servers that are not in use are loaded as the defaults |
| `CfgNtp.NtpSurvivesIff` | main/gw_cfg_json_parse_ntp.c:53-75 | the time settings survive exactly under the stated condition |
| `CfgScan.SavedScanLoads` | main/gw_cfg_json_parse_scan.c:32-121 | a configuration called default is loaded as the default, any other as it is |
| `CfgScan.OldScanConfigConverted` | main/gw_cfg_json_parse_scan.c:62-120 | an old configuration is converted if and only if it is loaded over one that is not called default |
| `CfgModel.OldScanItemsIgnored` | main/settings.c:176-192 | a saved object from before version 1.16 is loaded over the default, so if that is called default none of its scan items counts |
| `CfgScan.LoadMacsAt` | main/gw_cfg_json_parse_scan_filter.c:43-58 | every valid name of the list ends at its own place in the array, invalid ones leave the old entry, the rest is unchanged |
| `CfgScan.SavedFilterLoads` | main/gw_cfg_json_parse_scan_filter.c:32-60 | the saved list is loaded as it was |
| `CfgScan.FilterSurvives` | main/gw_cfg_cmp.c:405-430 | the filter survives by the firmware's comparison, for all filters |
| `CfgUpdate.SavedUpdateLoads` | main/gw_cfg_json_parse_auto_update.c:33-82 | update settings survive as they are |
| `CfgUpdate.StatSurvivesIff` | main/gw_cfg_json_parse_http_stat.c:32-80 | the statistics target survives if and only if the flags of an unused one are the default |
| `CfgModel.SavedLoads` | main/gw_cfg_json_parse.c:47-70 | parts do not disturb each other: loading the whole object restores each part as on its own |
| `CfgModel.SaveLoadIdempotent` | main/gw_cfg_json_generate.c:746-826 | for all configurations and defaults: loading what was saved twice gives exactly what loading it once gave |
| `CfgModel.RoundTripIff` | main/gw_cfg_cmp.c:456-508 | saving and loading give back the same configuration, by the firmware's comparison, if and only if each part meets its condition |
| `CfgModel.TargetsSurvive` | main/gw_cfg_json_generate.c:350-397 | with the hard-coded HTTP defaults saving and loading keep which targets receive posts |
| `CfgGenerate.JsonObject.AddMacList` | main/gw_cfg_json_generate.c:709-734 | the loop adds every MAC address once and in order |
| `CfgGenerate.Generate` | main/gw_cfg_json_generate.c:746-855 | the object that the round-trip theorems are about, or failure for lack of memory |
| `CfgParse.GwCfg.ParseMacList` | main/gw_cfg_json_parse_scan_filter.c:43-58 | the loop counts every name, stores the valid ones at their places and touches nothing else, if and only if all valid ones have a place in the array; otherwise it comes to a write that is not defined |
| `CfgParse.GwCfg.Parse` | main/gw_cfg_json_parse.c:47-70 | all parts in turn, on a copy of the defaults, give the configuration that the round-trip theorems are about, for every object for which the code is defined |
| `CfgStore.Settings.GetFromFlash` | main/settings.c:176-201 | the stored object loaded over the defaults, or the defaults, or that loading it is not defined |
| `CfgStore.Settings.SaveAndGet` | main/settings.c:154-201 | after saving and getting back, the configuration is the same by the firmware's comparison exactly if each part survives, and doing it once more changes nothing |
| `CfgParse.CompareMacLists` | main/gw_cfg_cmp.c:405-430 | the loop tells whether the two lists are equal |
| `HttpBuffers.UnknownLengthCollects` | main/http_download.c:746-822 | without an announced length the JSON buffer is the terminated body, for any cut into pieces |
| `HttpBuffers.KnownLengthCollects` | main/http_download.c:746-822 | with one it is the body and zeros up to that length, and an error if and only if the length is exceeded |
| `HttpBuffers.JsonDownload.OnData` | main/http_download.c:746-822 | allocating, growing and storing in place; redirects are ignored and errors are final |
| `HttpBuffers.PostResponse.OnContentLength` | main/http_post_event_handler.c:50-64 | an empty terminated buffer of the announced length, or none for lack of memory |
| `HttpBuffers.PostResponse.OnData` | main/http_post_event_handler.c:71-87 | the buffer holds the first Content-Length bytes of the body, terminated; the offset never exceeds the length |
| `HttpBuffers.PostResponse.Receive` | main/http_post_event_handler.c:50-87 | the same for a whole body in any pieces |

## Left out

- Tasks, mutexes, watchdogs, logging, LEDs and GPIO. Each operation of the table and each signal handler is one step;
  what other tasks do comes between steps.
- `sys/queue.h`: lists and queues are sequences of cell indices. The three readers of the retransmission queues, and the
  two senders of advertisements, are each one method with the queue or the target as a parameter.
- AdvTable.AdvTable.ReadRetransmissionList: bytes of the data buffer behind the used length are not part of a report.
- OtaPartition.OtaPartition.EraseSector: a sector is erased completely or not at all; torn erases are not modelled.
- OtaPartition.OtaPartition.WriteSector: an entry is written completely or not at all.
- OtaPartition.OtaPartition.SetBootPartition: the anti-rollback check and the label of an entry are not modelled; the
  checksum is any function of the sequence number, and image verification is an input.
- OtaWriter.OtaWriter.Write: one image at a time; the list of open handles is not modelled.
- OtaStream.Leftover: the remainder of a division by the block size is written as repeated subtraction, which is proved to
  be the same.
- OtaLife.DeviceRunsLastConfirmed: confirming an image is modelled as rewriting the entry that counts as valid; the
  function that does it is not part of this model.
- NrfLinkModel.SendCfgInternal: a command that could not be handed to the UART counts as sent, as it does for the flags.
- NrfLinkModel.OnAckArrives: reading and clearing the last command is one step, although another task could come between.
- FwDownloadModel.Download: counts are unbounded; a file of 4 GiB would wrap them.
- FwDownload.DataPartition.PartitionWrite: a piece that is not taken leaves flash unchanged.
- FwUpdateModel.Run: verifying the signature of an image and flashing the nRF52 are inputs, as is what each request
  receives; progress reports and what follows a reboot are left out. `esp_ota_get_state_partition`, which decides about
  invalidating the application, is not part of this model and its answer is an input.
- FwUpdateContents.ByteAfter: nothing is known of a range after an operation in it that failed.
- FwUpdateContents.SwitchedRunHoldsFiles: servers are assumed to honour ranges and files not to be empty.
- AsyncCommModel.StartHttp: building and sending a request is an input; period, nonce and HMAC key updates are left out.
- AsyncCommModel.OnRelayingModeChanged: the reports of an aborted batch are not freed by the code, which the model does
  not show.
- CfgJson.Uint32Or: numbers written as strings, which the readers also accept, are not modelled; saving never writes them.
- CfgJson.ReadStr: only the 256 bytes of the shared credentials are memory; all other texts are strings that fit.
- CfgParse.GwCfg.ParseMacList: reading one MAC address is not part of this model; a name that is none is taken to leave
  its entry of the array as it was. What happens after a write behind the end of the array is left open.
- CfgModel.SavedLoads: items are identified by constructors of a datatype, so that no two parts use the same JSON name
  holds by construction.
- CfgStore.Settings.Write: opening and committing the storage can fail at any point; a second try erases all of it.
  Blobs of older firmware are left out.
- CfgLan.LoadLan: names of authentication kinds, like MAC addresses, are read back as what they were written from; their
  conversions are not part of this model. Nor are the sizes of the HTTP server's buffers, which are parameters.
- CfgModel.Save: the object for the user interface, which hides passwords and adds device information, Ethernet and WiFi
  settings, and parsing of the JSON text itself are left out.
- HttpBuffers.PostResponse.OnContentLength: lengths are unbounded; the sum at the end of the 32-bit range is not modelled.
- HttpBuffers.JsonDownload.OnData: the response code that is remembered beside the text is left out.
- `event_mgr`, `gw_status`, configuration caches, timer tables, advertisement decoders, the Python tools and the logging of
  configurations would only add easy members.
