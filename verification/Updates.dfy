/** A whole update, from the host's upload to the confirmation of its trial. */
module Updates {
  import opened Words
  import opened BootState
  import opened Nor
  import opened JournalProofs
  import opened Trial
  import opened Image
  import opened BootMachine
  import opened BootProofs
  import opened Transfer
  import opened Boot
  import Client
  import EngineProofs
  import Retry

  lemma OfferedIsSelected(mem: Bytes, slot: uint8)
    requires |mem| == FLASH_SIZE && SlotValid(slot) && Offered(Current(mem), slot) && Bootable(mem, slot)
    ensures Selection(Current(mem)) == Choice(Tried(Current(mem)), slot)
    ensures Tried(Current(mem)).pending == slot && Tried(Current(mem)).trials == 1
  {
    hide Newest, Bootable;
    BootableIsValid(mem, slot);
  }

  /** The slot runs as a trial that the journal has recorded. */
  ghost predicate OnItsTrial(mem: Bytes, words: Mail, slot: uint8, image: Bytes) {
    && |mem| == FLASH_SIZE && SlotValid(slot) && |image| <= SLOT_SIZE && Intact(Cells(mem))
    && Current(mem).pending == slot && Current(mem).trials == 1
    && Bootable(mem, slot) && SlotBytes(mem, slot)[..|image|] == image
    && Trial.Handoff(words) == Some(Token(slot, Current(mem).sequence))
  }

  /** An upload that returned, a reset, and a boot without faults and without a
      recovery request: the uploaded image runs, on trial. The mailbox says
      nothing before, as recovery leaves it. */
  method UploadThenBoot(client: Client.RecoveryClient, image: Bytes, choice: Option<uint8>, mail: Mail, ram: Ram, seed: uint32)
      returns (target: Option<uint8>, nor: Flash, mailbox: Mailbox, boot: Bootloader, status: HandoffStatus)
    requires client.Ready() && Healthy(client.link.Now()) && Silent(mail)
    requires ram.Valid() && seed != 0
    modifies client, client.link`tries, client.link.device, client.link.device.nor, ram.cells
    ensures fresh(nor) && fresh(mailbox) && nor.faults == Reliable && boot.nor == nor && boot.mailbox == mailbox && boot.Ready()
    ensures target.Some? && choice.Some? ==> target == choice
    ensures old(client.Welcomes(image, choice)) && target.None? ==>
      Client.Stalled(client.link.tries, |old(client.link.tries)|, client.retries + 1)
    ensures target.Some? && ram.sound && mailbox.running ==>
      && nor.powered && status == OnTrial
      && boot.Now().mode == App(target.value) && OnItsTrial(nor.mem, mailbox.words, target.value, image)
      && Copied(nor.mem, target.value, ram.cells[..])
  {
    hide Newest, Bootable, Healthy, Copied, Intact, Safe, Path, Client.Stalled, Client.RecoveryClient.Welcomes;
    var uploaded := client.Upload(image, choice);
    ghost var mem := client.link.device.nor.mem;
    nor := new Flash(client.link.device.nor.mem, Reliable);
    mailbox := new Mailbox(mail);
    boot := new Bootloader(nor, ram, mailbox, seed, false, true);
    if uploaded.Err? { return None, nor, mailbox, boot, NoApplication; }
    target := Some(uploaded.value);
    HealthyIsIntact(client.link.Now());
    OfferedIsSelected(mem, uploaded.value);
    var result, state, watchdog;
    result, state, status, watchdog := boot.Boot(false);
  }

  lemma HealthyIsIntact(s: EngineProofs.Snap)
    requires Healthy(s)
    ensures |s.mem| == FLASH_SIZE && Intact(Cells(s.mem))
  {
    hide Retry.Sane, Intact, Near;
  }

  /** The image is in the slot the journal confirms, and no update is pending. */
  ghost predicate Installed(mem: Bytes, slot: uint8, image: Bytes) {
    && |mem| == FLASH_SIZE && SlotValid(slot) && |image| <= SLOT_SIZE
    && Current(mem).confirmed == slot && Current(mem).pending == SLOT_NONE
    && SlotBytes(mem, slot)[..|image|] == image
  }

  lemma TrialConfirms(mem: Bytes, words: Mail, slot: uint8, image: Bytes)
    requires OnItsTrial(mem, words, slot, image)
    ensures |mem| == FLASH_SIZE && Intact(Cells(mem)) && SlotValid(slot) && Bootable(mem, slot)
    ensures var current, token := Current(mem), Trial.Handoff(words);
      && token.Some? && token.value.slot == slot && ConfirmationOf(current, token) == Accepted
      && var confirmed := AfterConfirmation(current, token);
         confirmed == Confirmed(current) && Selection(confirmed) == Choice(confirmed, slot)
         && confirmed.confirmed == slot && confirmed.pending == SLOT_NONE
  {
    hide Newest, Bootable, Intact, Trial.Handoff;
    BootableIsValid(mem, slot);
  }

  /** The application on trial arms its confirmation, the device resets, and a
      boot without faults confirms the slot and runs it for good. */
  method ArmThenBoot(nor: Flash, trial: Mailbox, slot: uint8, image: Bytes, ram: Ram, seed: uint32)
      returns (mailbox: Mailbox, boot: Bootloader, result: Boot.Result, status: HandoffStatus)
    requires nor.Valid() && nor.powered && nor.faults == Reliable && trial.running
    requires OnItsTrial(nor.mem, trial.words, slot, image)
    requires ram.Valid() && seed != 0
    modifies nor, trial, ram.cells
    ensures boot.nor == nor && boot.mailbox == mailbox && boot.Ready()
    ensures trial.running && ram.sound && mailbox.running ==>
      && nor.powered && result.confirmation == Accepted && status == OnConfirmed
      && boot.Now().mode == App(slot) && Installed(nor.mem, slot, image)
  {
    hide Newest, Bootable, Intact, Safe, Path, OnItsTrial, Trial.Handoff, Trial.Confirmation;
    ghost var handed, mem := trial.words, nor.mem;
    TrialConfirms(mem, handed, slot, image);
    var armed := trial.ArmConfirmation();
    ArmIsAtomic(handed, trial.words, trial.running);
    mailbox := new Mailbox(trial.words);
    boot := new Bootloader(nor, ram, mailbox, seed, false, true);
    var state, watchdog;
    result, state, status, watchdog := boot.Boot(false);
    if trial.running && ram.sound && mailbox.running { StillInstalled(mem, handed, nor.mem, slot, image, state.value); }
  }

  lemma StillInstalled(mem: Bytes, words: Mail, after: Bytes, slot: uint8, image: Bytes, state: State)
    requires OnItsTrial(mem, words, slot, image) && Records(mem, state, after)
    requires state.confirmed == slot && state.pending == SLOT_NONE
    ensures Installed(after, slot, image)
  {
    hide Newest, Bootable, Intact, Trial.Handoff;
  }

  /** The whole way: upload, trial, confirmation. Whatever the link lost on the
      way in, the image the host sent is the one that ends up confirmed. */
  method Update(client: Client.RecoveryClient, image: Bytes, choice: Option<uint8>, mail: Mail, ram: Ram, seed: uint32)
      returns (target: Option<uint8>, nor: Flash, running: bool)
    requires client.Ready() && Healthy(client.link.Now()) && Silent(mail)
    requires ram.Valid() && seed != 0
    modifies client, client.link`tries, client.link.device, client.link.device.nor, ram.cells
    ensures target.Some? && ram.sound && running ==>
      nor.Valid() && Installed(nor.mem, target.value, image)
    ensures old(client.Welcomes(image, choice)) && target.None? ==>
      Client.Stalled(client.link.tries, |old(client.link.tries)|, client.retries + 1)
  {
    hide Newest, Bootable, Intact, Safe, Path, Healthy, Copied, Installed, OnItsTrial, Client.Stalled, Client.RecoveryClient.Welcomes;
    var mailbox, boot, status;
    target, nor, mailbox, boot, status := UploadThenBoot(client, image, choice, mail, ram, seed);
    running := mailbox.running;
    if target == None || !ram.sound || !running { return; }
    var result;
    var trial := mailbox;
    mailbox, boot, result, status := ArmThenBoot(nor, trial, target.value, image, ram, seed);
    running := trial.running && mailbox.running;
  }
}
